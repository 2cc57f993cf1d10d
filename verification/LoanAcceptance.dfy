/** When a balance may be moved, read off the rows of the two loans, and what
    every accepted move keeps of the money a loan has released. */
module LoanAcceptance {
  import opened Options
  import opened Calendar
  import opened Amortization
  import opened AmortizationProofs
  import opened LoanDetail
  import opened LoanTransfers
  import opened LoanLedger
  import opened LoanFigures

  // ----- the target's rows

  function PaidOutOf(l: Ledger, loan: LoanId): int {
    SumWhere(l.transfers, TakingOver(loan), TransferAmount)
  }

  lemma {:induction false} OwnPaidOut(loan: LoanId, ts: seq<Transfer>)
    ensures SumWhere(Own(loan, ts), TakingOver(loan), TransferAmount) == SumWhere(ts, TakingOver(loan), TransferAmount)
  {
    if ts != [] {
      var t, own := ts[|ts| - 1], Own(loan, ts[..|ts| - 1]);
      OwnPaidOut(loan, ts[..|ts| - 1]);
      assert (own + [t])[..|own|] == own && own + [] == own;
    }
  }

  predicate Leaves(ts: seq<Transfer>, loan: LoanId) {
    exists k :: 0 <= k < |ts| && ts[k].from == loan
  }

  lemma {:induction false} OwnLeaves(loan: LoanId, ts: seq<Transfer>)
    requires forall k :: 0 <= k < |ts| ==> ts[k].from != ts[k].to
    ensures SettledOn(loan, Own(loan, ts)).Some? <==> Leaves(ts, loan)
  {
    if ts != [] {
      var init, t := ts[..|ts| - 1], ts[|ts| - 1];
      var own := Own(loan, init);
      OwnLeaves(loan, init);
      assert forall k :: 0 <= k < |init| ==> ts[k] == init[k];
      assert Leaves(ts, loan) <==> Leaves(init, loan) || t.from == loan;
      assert (own + [t])[..|own|] == own && own + [] == own;
    }
  }

  // ----- the reasons to refuse

  const Once := (p: Payment) => 1

  function PaymentsMade(l: Ledger, loan: LoanId): int {
    SumWhere(PaymentsOf(l, loan), IsDebit, Once)
  }

  predicate InstallmentAfter(t: Terms, paid: int, d: Date, i: int) {
    paid <= i < t.tenureMonths && Before(d, AddMonthsAnchored(t.firstDue, i))
  }

  /** An installment the loan still owes, due after `d`: no transfer has left the
      loan, and the payments out do not reach the installment. */
  ghost predicate OwesAfter(l: Ledger, loan: LoanId, d: Date)
    requires loan in l.schedules
  {
    && !Leaves(l.transfers, loan)
    && exists i: int :: InstallmentAfter(l.schedules[loan], PaymentsMade(l, loan), d, i)
  }

  ghost function OpeningRefusal(l: Ledger, req: Request): Option<Refusal> {
    if req.target in l.schedules then Some(TargetHasSchedule)
    else if req.terms.Some? && req.terms.value.annualRateBps >= 0 && 1 <= req.terms.value.tenureMonths <= 600 then None
    else Some(TermsMissing)
  }

  /** A takeover is paid out of what the target released and has not yet paid out
      for other loans; a recast needs an installment to land on. */
  ghost function TargetRefusal(l: Ledger, req: Request, amount: int): Option<Refusal> {
    if req.mode == Some(Opens) || (req.mode == None && req.target !in l.schedules) then OpeningRefusal(l, req)
    else if req.target !in l.schedules then Some(NoTargetSchedule)
    else
      var t := l.schedules[req.target];
      if req.mode == Some(Takeover)
      then (if PaidOutOf(l, req.target) + amount <= t.principal - t.processingFee then None else Some(NetTooSmall))
      else if OwesAfter(l, req.target, req.date) then None else Some(NothingToRecast)
  }

  /** Why a request is refused, in the order the reasons are looked for. */
  ghost function RefusalOf(l: Ledger, req: Request, usable: bool): Option<Refusal> {
    if req.source == req.target then Some(SameLoan)
    else if req.source !in l.schedules then Some(NoSourceSchedule)
    else if Leaves(l.transfers, req.source) then Some(AlreadySettled)
    else if Quote(l, req).amount <= 0 then Some(NothingLeft)
    else if !usable then Some(TargetUnusable)
    else TargetRefusal(l, req, Quote(l, req).amount)
  }

  // ----- the refusals are those

  lemma ViewIsSettled(l: Ledger, loan: LoanId)
    requires LedgerOk(l) && loan in l.schedules
    ensures View(l, loan).schedule == Some(l.schedules[loan])
    ensures View(l, loan).settledOn.Some? <==> Leaves(l.transfers, loan)
  {
    OwnLeaves(loan, l.transfers);
  }

  lemma {:induction false} CountsAgree(ps: seq<Payment>)
    ensures SumWhere(ps, IsDebit, Once) == Debits(ps)
  {
    if ps != [] {
      CountsAgree(ps[..|ps| - 1]);
    }
  }

  lemma MarkedAre(l: Ledger, loan: LoanId, i: nat)
    requires LedgerOk(l) && loan in l.schedules && i < |View(l, loan).entries|
    ensures var e, paid := View(l, loan).entries[i], PaymentsMade(l, loan);
            && |View(l, loan).entries| == l.schedules[loan].tenureMonths
            && e.due == AddMonthsAnchored(l.schedules[loan].firstDue, i)
            && (!e.paid && !e.cancelled <==> paid <= i && !Leaves(l.transfers, loan))
  {
    var t, adj := l.schedules[loan], Adjustments(loan, Own(loan, l.transfers));
    OwnLeaves(loan, l.transfers);
    CountsAgree(PaymentsOf(l, loan));
    DueAt(t, adj, Quoted(t), i + 1);
  }

  lemma OwesExactlyWhen(l: Ledger, loan: LoanId, d: Date)
    requires LedgerOk(l) && loan in l.schedules
    ensures HasInstallmentsAfter(View(l, loan).entries, d) <==> OwesAfter(l, loan, d)
  {
    var entries, t := View(l, loan).entries, l.schedules[loan];
    var paid := PaymentsMade(l, loan);
    PaidAreCovered(l, loan);
    CountsAgree(PaymentsOf(l, loan));
    if i :| 0 <= i < |entries| && !entries[i].paid && !entries[i].cancelled && Before(d, entries[i].due) {
      MarkedAre(l, loan, i);
      assert InstallmentAfter(t, paid, d, i);
    }
    if OwesAfter(l, loan, d) {
      var i: int :| InstallmentAfter(t, paid, d, i);
      MarkedAre(l, loan, i);
    }
  }

  lemma NetIs(l: Ledger, loan: LoanId)
    requires loan in l.schedules
    ensures View(l, loan).schedule.Some?
    ensures NetDisbursement(View(l, loan))
         == l.schedules[loan].principal - l.schedules[loan].processingFee - PaidOutOf(l, loan)
  {
    OwnPaidOut(loan, l.transfers);
    TransferSums(loan, Own(loan, l.transfers));
  }

  lemma UnscheduledTarget(l: Ledger, req: Request, amount: int)
    requires req.target !in l.schedules
    ensures CheckTarget(l, req, amount) == TargetRefusal(l, req, amount)
  {
    SchedulePresent(l, req.target);
  }

  lemma ScheduledTarget(l: Ledger, req: Request, amount: int)
    requires LedgerOk(l) && req.target in l.schedules
    ensures CheckTarget(l, req, amount) == TargetRefusal(l, req, amount)
  {
    NetIs(l, req.target);
    OwesExactlyWhen(l, req.target, req.date);
  }

  lemma TargetRefusalIs(l: Ledger, req: Request, amount: int)
    requires LedgerOk(l)
    ensures CheckTarget(l, req, amount) == TargetRefusal(l, req, amount)
  {
    if req.target in l.schedules {
      ScheduledTarget(l, req, amount);
    } else {
      UnscheduledTarget(l, req, amount);
    }
  }

  ghost predicate ReasonBefore(l: Ledger, req: Request, usable: bool) {
    req.source == req.target || req.source !in l.schedules || Leaves(l.transfers, req.source)
    || Quote(l, req).amount <= 0 || !usable
  }

  lemma RefusedBefore(l: Ledger, req: Request, usable: bool)
    requires LedgerOk(l) && ReasonBefore(l, req, usable)
    ensures RefusalOf(l, req, usable).Some? && TransferBalance(l, req, usable) == Err(RefusalOf(l, req, usable).value)
  {
    SchedulePresent(l, req.source);
    if req.source in l.schedules {
      ViewIsSettled(l, req.source);
    }
  }

  lemma DecidedByTheTarget(l: Ledger, req: Request, usable: bool)
    requires LedgerOk(l) && !ReasonBefore(l, req, usable)
    ensures match CheckTarget(l, req, Quote(l, req).amount)
            case Some(why) => TransferBalance(l, req, usable) == Err(why)
            case None => TransferBalance(l, req, usable).Ok?
  {
    ViewIsSettled(l, req.source);
  }

  /** A balance is moved exactly when the rows give no reason against it, and is
      otherwise refused for the first reason they give. */
  lemma RefusedExactlyWhen(l: Ledger, req: Request, usable: bool)
    requires LedgerOk(l)
    ensures match RefusalOf(l, req, usable)
            case Some(why) => TransferBalance(l, req, usable) == Err(why)
            case None => TransferBalance(l, req, usable).Ok?
  {
    if ReasonBefore(l, req, usable) {
      RefusedBefore(l, req, usable);
    } else {
      DecidedByTheTarget(l, req, usable);
      TargetRefusalIs(l, req, Quote(l, req).amount);
    }
  }

  // ----- no loan pays out more than it released

  /** What a loan released: its principal less the fee. */
  function Released(l: Ledger, loan: LoanId): int {
    if loan in l.schedules then l.schedules[loan].principal - l.schedules[loan].processingFee else 0
  }

  ghost predicate Funded(l: Ledger) {
    forall loan :: PaidOutOf(l, loan) <= Released(l, loan)
  }

  lemma {:induction false} SumAppend(a: seq<Transfer>, b: seq<Transfer>, p: Transfer -> bool)
    ensures SumWhere(a + b, p, TransferAmount) == SumWhere(a, p, TransferAmount) + SumWhere(b, p, TransferAmount)
  {
    if b == [] {
      assert a + b == a;
    } else {
      SumAppend(a, b[..|b| - 1], p);
      assert (a + b)[..|a + b| - 1] == a + b[..|b| - 1];
    }
  }

  lemma SumOfOne(row: Transfer, p: Transfer -> bool)
    ensures SumWhere([row], p, TransferAmount) == if p(row) then row.amount else 0
  {
    assert [row][..0] == [];
  }

  // What one row adds wherever it stands.
  lemma SumWithRow(ts: seq<Transfer>, i: nat, row: Transfer, p: Transfer -> bool)
    requires i <= |ts|
    ensures SumWhere(ts[..i] + [row] + ts[i..], p, TransferAmount)
         == SumWhere(ts, p, TransferAmount) + (if p(row) then row.amount else 0)
  {
    var a, b := ts[..i], ts[i..];
    assert ts == a + b;
    SumAppend(a + [row], b, p);
    SumAppend(a, [row], p);
    SumAppend(a, b, p);
    SumOfOne(row, p);
  }

  lemma {:induction false} NoneTaken(ts: seq<Transfer>, loan: LoanId)
    requires Untouched(ts, loan)
    ensures SumWhere(ts, TakingOver(loan), TransferAmount) == 0
  {
    if ts != [] {
      NoneTaken(ts[..|ts| - 1], loan);
    }
  }

  lemma RowIsFunded(l: Ledger, l': Ledger, row: Transfer, loan: LoanId)
    requires l'.transfers == Insert(l.transfers, row) && Released(l', loan) >= Released(l, loan)
    requires PaidOutOf(l, loan)
               + (if row.to == loan && row.mode == Takeover then row.amount else 0) <= Released(l, loan)
    ensures PaidOutOf(l', loan) <= Released(l', loan)
  {
    SumWithRow(l.transfers, Place(l.transfers, row.date), row, TakingOver(loan));
  }

  lemma TakeoverIsCovered(l: Ledger, req: Request, usable: bool)
    requires LedgerOk(l) && TransferBalance(l, req, usable).Ok? && Row(l, req).mode == Takeover
    ensures PaidOutOf(l, req.target) + Row(l, req).amount <= Released(l, req.target)
  {
    Accepted(l, req, usable);
    NetIs(l, req.target);
  }

  lemma MoveReleasesNoLess(l: Ledger, req: Request, usable: bool, loan: LoanId)
    requires TransferBalance(l, req, usable).Ok?
    ensures TransferBalance(l, req, usable).value.transfers == Insert(l.transfers, Row(l, req))
    ensures Released(TransferBalance(l, req, usable).value, loan) >= Released(l, loan)
  {
    Accepted(l, req, usable);
  }

  /** What a loan has paid out for others never exceeds what it released, through
      every accepted transfer. */
  lemma TransferKeepsFunded(l: Ledger, req: Request, usable: bool)
    requires LedgerOk(l) && Funded(l) && TransferBalance(l, req, usable).Ok?
    ensures Funded(TransferBalance(l, req, usable).value)
  {
    var l' := TransferBalance(l, req, usable).value;
    forall loan
      ensures PaidOutOf(l', loan) <= Released(l', loan)
    {
      assert PaidOutOf(l, loan) <= Released(l, loan);
      if Row(l, req).mode == Takeover && req.target == loan {
        TakeoverIsCovered(l, req, usable);
      }
      MoveReleasesNoLess(l, req, usable, loan);
      RowIsFunded(l, l', Row(l, req), loan);
    }
  }

  lemma RemovalIsFunded(l: Ledger, i: nat, loan: LoanId)
    requires RowsOk(l.transfers) && i < |l.transfers|
    ensures SumWhere(l.transfers[..i] + l.transfers[i + 1..], TakingOver(loan), TransferAmount) <= PaidOutOf(l, loan)
  {
    var row, rest := l.transfers[i], l.transfers[..i] + l.transfers[i + 1..];
    assert rest[..i] + [row] + rest[i..] == l.transfers;
    SumWithRow(rest, i, row, TakingOver(loan));
  }

  // The terms stay, but for a loan the transfer opened, which nothing else reached.
  lemma DeletionIs(l: Ledger, id: int, source: LoanId, loan: LoanId)
    requires DeleteTransfer(l, id, source).Ok?
    ensures var l', i := DeleteTransfer(l, id, source).value, Find(l.transfers, id, source);
            && l'.transfers == (if i == |l.transfers| then l.transfers else l.transfers[..i] + l.transfers[i + 1..])
            && (Released(l', loan) == Released(l, loan) || (Released(l', loan) == 0 && Untouched(l'.transfers, loan)))
  {
  }

  /** And every accepted deletion. */
  lemma DeleteKeepsFunded(l: Ledger, id: int, source: LoanId)
    requires LedgerOk(l) && Funded(l) && DeleteTransfer(l, id, source).Ok?
    ensures Funded(DeleteTransfer(l, id, source).value)
  {
    var l', i := DeleteTransfer(l, id, source).value, Find(l.transfers, id, source);
    forall loan
      ensures PaidOutOf(l', loan) <= Released(l', loan)
    {
      assert PaidOutOf(l, loan) <= Released(l, loan);
      DeletionIs(l, id, source, loan);
      if i < |l.transfers| {
        RemovalIsFunded(l, i, loan);
      }
      if Untouched(l'.transfers, loan) {
        NoneTaken(l'.transfers, loan);
      }
    }
  }
}
