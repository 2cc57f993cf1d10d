/** The amortization table of `loan.go`: whole minor units, a broken first
    period, and the balances transferred in that recast the installments still
    due. */
module Amortization {
  import opened Options
  import opened Calendar
  import opened Rounding

  datatype Terms = Terms(
    principal: int, processingFee: int, annualRateBps: int, tenureMonths: int,
    firstDue: Date, disbursal: Option<Date>)

  datatype Adjustment = Adjustment(date: Date, amount: int)

  datatype Entry = Entry(
    number: int, due: Date, amount: int, principal: int, interest: int,
    balance: int, recast: bool, paid: bool, cancelled: bool)

  function MonthlyRate(bps: int): real { bps as real / 120000.0 }

  /** Present value of `months` payments of one unit. */
  function AnnuityFactor(rate: real, months: int): real {
    if months <= 0 then 0.0
    else if rate <= 0.0 then months as real
    else
      PowAtLeastOne(1.0 + rate, months);
      (1.0 - 1.0 / Pow(1.0 + rate, months)) / rate
  }

  /** The level installment before rounding. */
  function ExactEMI(principal: int, rate: real, months: int): real
    requires months > 0
  {
    if rate <= 0.0 then principal as real / months as real
    else
      PowGreaterThanOne(1.0 + rate, months);
      principal as real * rate * Pow(1.0 + rate, months) / (Pow(1.0 + rate, months) - 1.0)
  }

  function LoanEMI(principal: int, rate: real, months: int): int {
    if months <= 0 then principal else Round(ExactEMI(principal, rate, months))
  }

  function LoanEMIWithStub(balance: int, rate: real, months: int, firstInterest: int): int {
    if months <= 1 then balance + firstInterest
    else
      var factor := 1.0 + AnnuityFactor(rate, months - 1);
      if factor <= 0.0 then balance + firstInterest
      else Round((balance + firstInterest) as real / factor)
  }

  /** Rounds an installment up to the whole rupee. */
  function RupeeCeil(a: int): int {
    if a <= 0 then a else (a + 99) / 100 * 100
  }

  /** Interest for a period that is not a whole month: actual days over 30. */
  function BrokenPeriodInterest(balance: int, bps: int, days: int): int {
    Round(balance as real * bps as real / 120000.0 * days as real / 30.0)
  }

  function MonthInterest(balance: int, bps: int): int {
    Round(balance as real * MonthlyRate(bps))
  }

  /** The days of a first period that is a broken month. */
  function FirstPeriodStub(disbursal: Option<Date>, firstDue: Date): Option<int> {
    if disbursal.None? || !Before(disbursal.value, firstDue) || AddMonthsAnchored(disbursal.value, 1) == firstDue
        then None
    else Some(ToDay(firstDue) - ToDay(disbursal.value))
  }

  function Stub(t: Terms): Option<int> {
    FirstPeriodStub(t.disbursal, t.firstDue)
  }

  /** The due date of installment `i`, counted from one. */
  function Due(t: Terms, i: int): Date {
    AddMonthsAnchored(t.firstDue, i - 1)
  }

  // ----- the table, one installment at a time

  /** The loop's variables after some installments. */
  datatype Run = Run(remaining: int, emi: int, next: nat, recast: bool, entries: seq<Entry>)

  /** How an installment is solved: from a balance, before installment `i`. The
      table is generated over any solver; the program's is `Quoted`. */
  type Solver = (int, int) -> int

  function SolveEMI(t: Terms, balance: int, i: int): int {
    if i == 1 && Stub(t).Some? then
      RupeeCeil(LoanEMIWithStub(balance, MonthlyRate(t.annualRateBps), t.tenureMonths,
        BrokenPeriodInterest(balance, t.annualRateBps, Stub(t).value)))
    else RupeeCeil(LoanEMI(balance, MonthlyRate(t.annualRateBps), t.tenureMonths - i + 1))
  }

  function Quoted(t: Terms): Solver {
    (balance, i) => SolveEMI(t, balance, i)
  }

  function InterestAt(t: Terms, balance: int, i: int): int {
    if i == 1 && Stub(t).Some? then BrokenPeriodInterest(balance, t.annualRateBps, Stub(t).value)
    else MonthInterest(balance, t.annualRateBps)
  }

  function PrincipalAt(t: Terms, balance: int, emi: int, interest: int, i: int): int {
    if i == t.tenureMonths then (if balance > 0 then balance else 0)
    else if emi > interest then (if emi - interest > balance then balance else emi - interest)
    else 0
  }

  // How many transfers are owed by `due`.
  function OwedBy(adj: seq<Adjustment>, next: nat, due: Date): (n: nat)
    requires next <= |adj|
    ensures next <= n <= |adj|
    ensures forall k :: next <= k < n ==> Before(adj[k].date, due)
    ensures n < |adj| ==> !Before(adj[n].date, due)
    decreases |adj| - next
  {
    if next < |adj| && Before(adj[next].date, due) then OwedBy(adj, next + 1, due) else next
  }

  function AmountSum(adj: seq<Adjustment>): int {
    if adj == [] then 0 else AmountSum(adj[..|adj| - 1]) + adj[|adj| - 1].amount
  }

  // Installment `i` over `balance`, with the transfers up to `next` taken up.
  function Settle(t: Terms, solve: Solver, run: Run, i: int, next: nat, balance: int): Run {
    var emi := if next > run.next then solve(balance, i) else run.emi;
    var interest := InterestAt(t, balance, i);
    var principal := PrincipalAt(t, balance, emi, interest, i);
    var recast := run.recast || next > run.next;
    Run(balance - principal, emi, next, recast, run.entries +
      [Entry(i, Due(t, i), principal + interest, principal, interest, balance - principal, recast, false, false)])
  }

  function Step(t: Terms, adj: seq<Adjustment>, solve: Solver, run: Run, i: int): Run
    requires run.next <= |adj|
  {
    var next := OwedBy(adj, run.next, Due(t, i));
    Settle(t, solve, run, i, next, run.remaining + AmountSum(adj[run.next..next]))
  }

  function Start(t: Terms, solve: Solver): Run {
    Run(t.principal, solve(t.principal, 1), 0, false, [])
  }

  function RunAt(t: Terms, adj: seq<Adjustment>, solve: Solver, k: nat): (r: Run)
    ensures r.next <= |adj| && |r.entries| == k
  {
    if k == 0 then Start(t, solve) else Step(t, adj, solve, RunAt(t, adj, solve, k - 1), k)
  }

  function Table(t: Terms, adj: seq<Adjustment>, solve: Solver): (entries: seq<Entry>)
    ensures |entries| == if t.tenureMonths < 1 then 0 else t.tenureMonths
  {
    if t.tenureMonths < 1 then [] else RunAt(t, adj, solve, t.tenureMonths).entries
  }

  function LastEMI(t: Terms, adj: seq<Adjustment>, solve: Solver): int {
    if t.tenureMonths < 1 then t.principal else RunAt(t, adj, solve, t.tenureMonths).emi
  }

  // ----- the table as the program generates it

  /** Solves the installment: level over the installments left, and over the
      broken first period as well when it is still ahead. */
  method SolveInstallment(t: Terms, balance: int, i: int) returns (emi: int)
    ensures emi == Quoted(t)(balance, i)
  {
    var rate := MonthlyRate(t.annualRateBps);
    emi := LoanEMI(balance, rate, t.tenureMonths - i + 1);
    var stub := Stub(t);
    if i == 1 && stub.Some? {
      emi := LoanEMIWithStub(balance, rate, t.tenureMonths, BrokenPeriodInterest(balance, t.annualRateBps, stub.value));
    }
    emi := RupeeCeil(emi);
  }

  lemma OneMoreTransfer(adj: seq<Adjustment>, from: nat, next: nat)
    requires from <= next < |adj|
    ensures AmountSum(adj[from..next + 1]) == AmountSum(adj[from..next]) + adj[next].amount
  {
    var longer := adj[from..next + 1];
    assert longer[..|longer| - 1] == adj[from..next];
  }

  /** Adds every transfer dated before `due` that has not been added yet. */
  method AbsorbTransfers(adj: seq<Adjustment>, from: nat, due: Date, owed: int) returns (remaining: int, next: nat)
    requires from <= |adj|
    ensures next == OwedBy(adj, from, due) && remaining == owed + AmountSum(adj[from..next])
  {
    remaining, next := owed, from;
    while next < |adj| && Before(adj[next].date, due)
      invariant from <= next <= |adj|
      invariant OwedBy(adj, from, due) == OwedBy(adj, next, due)
      invariant remaining == owed + AmountSum(adj[from..next])
      decreases |adj| - next
    {
      OneMoreTransfer(adj, from, next);
      remaining := remaining + adj[next].amount;
      next := next + 1;
    }
  }

  // One turn of the loop: the variables after installment `i`.
  method Installment(t: Terms, adj: seq<Adjustment>, run: Run, i: int) returns (after: Run)
    requires run.next <= |adj|
    ensures after == Step(t, adj, Quoted(t), run, i)
  {
    var due := Due(t, i);
    var emi, recast := run.emi, run.recast;
    var remaining, next := AbsorbTransfers(adj, run.next, due, run.remaining);
    if next > run.next {
      recast := true;
      emi := SolveInstallment(t, remaining, i);
    }
    var interest := InterestAt(t, remaining, i);
    var principalPart := 0;
    if i == t.tenureMonths {
      if remaining > 0 {
        principalPart := remaining;
      }
    } else if emi > interest {
      principalPart := emi - interest;
      if principalPart > remaining {
        principalPart := remaining;
      }
    }
    remaining := remaining - principalPart;
    after := Run(remaining, emi, next, recast, run.entries +
      [Entry(i, due, principalPart + interest, principalPart, interest, remaining, recast, false, false)]);
  }

  method LoanAmortization(t: Terms, adj: seq<Adjustment>) returns (emi: int, entries: seq<Entry>)
    ensures emi == LastEMI(t, adj, Quoted(t)) && entries == Table(t, adj, Quoted(t))
  {
    if t.tenureMonths < 1 {
      return t.principal, [];
    }
    emi := SolveInstallment(t, t.principal, 1);
    var run := Run(t.principal, emi, 0, false, []);
    for i := 1 to t.tenureMonths + 1
      invariant run == RunAt(t, adj, Quoted(t), i - 1)
    {
      run := Installment(t, adj, run, i);
    }
    emi, entries := run.emi, run.entries;
  }
}
