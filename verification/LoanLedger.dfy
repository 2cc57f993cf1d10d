/** Balance transfers as steps over the ledger's rows: both loans are derived
    from one row, so deleting it puts both back. */
module LoanLedger {
  import opened Options
  import opened Calendar
  import opened Rounding
  import opened Amortization
  import opened AmortizationProofs
  import opened LoanDetail
  import opened LoanTransfers

  /** The rows: schedules by loan, transfers in the order they take effect (by
      date, then creation), EMI payments by loan. */
  datatype Ledger = Ledger(schedules: map<LoanId, Terms>, transfers: seq<Transfer>, payments: map<LoanId, seq<Payment>>)

  datatype NewTerms = NewTerms(annualRateBps: int, tenureMonths: int, firstDue: Date)

  datatype Request = Request(id: int, source: LoanId, target: LoanId, date: Date, mode: Option<Mode>,
                             terms: Option<NewTerms>)

  datatype Refusal =
    SameLoan | NoSourceSchedule | AlreadySettled | NothingLeft | TargetUnusable | TargetHasSchedule
    | TermsMissing | NoTargetSchedule | NothingToRecast | NetTooSmall | TargetChanged

  datatype Result<T> = Ok(value: T) | Err(error: Refusal)

  const MaxTenureMonths := 600

  function Own(loan: LoanId, ts: seq<Transfer>): seq<Transfer> {
    if ts == [] then []
    else
      var t := ts[|ts| - 1];
      Own(loan, ts[..|ts| - 1]) + if t.from == loan || t.to == loan then [t] else []
  }

  function ScheduleOf(l: Ledger, loan: LoanId): Option<Terms> {
    if loan in l.schedules then Some(l.schedules[loan]) else None
  }

  function PaymentsOf(l: Ledger, loan: LoanId): seq<Payment> {
    if loan in l.payments then l.payments[loan] else []
  }

  function View(l: Ledger, loan: LoanId): Detail {
    DetailOf(loan, ScheduleOf(l, loan), Own(loan, l.transfers), PaymentsOf(l, loan))
  }

  // ----- the steps

  // A new row takes its place after every row up to its date.
  function Place(ts: seq<Transfer>, d: Date): (p: nat)
    ensures p <= |ts|
    ensures p < |ts| ==> Before(d, ts[p].date)
    ensures forall k :: 0 <= k < p ==> !Before(d, ts[k].date)
  {
    if ts == [] || Before(d, ts[0].date) then 0 else Place(ts[1..], d) + 1
  }

  function Insert(ts: seq<Transfer>, t: Transfer): seq<Transfer> {
    var p := Place(ts, t.date);
    ts[..p] + [t] + ts[p..]
  }

  predicate HasInstallmentsAfter(entries: seq<Entry>, d: Date) {
    exists i :: 0 <= i < |entries| && !entries[i].paid && !entries[i].cancelled && Before(d, entries[i].due)
  }

  function ChosenMode(l: Ledger, req: Request): Mode {
    if req.mode.Some? then req.mode.value
    else if req.target in l.schedules then Recast
    else Opens
  }

  predicate TermsGiven(terms: Option<NewTerms>) {
    terms.Some? && terms.value.annualRateBps >= 0 && 1 <= terms.value.tenureMonths <= MaxTenureMonths
  }

  function NetDisbursement(d: Detail): int
    requires d.schedule.Some?
  {
    d.schedule.value.principal - d.schedule.value.processingFee - d.paidOut
  }

  function CheckTarget(l: Ledger, req: Request, amount: int): Option<Refusal> {
    var target := View(l, req.target);
    match ChosenMode(l, req)
    case Opens =>
      if target.schedule.Some? then Some(TargetHasSchedule)
      else if !TermsGiven(req.terms) then Some(TermsMissing)
      else None
    case Recast =>
      if target.schedule.None? then Some(NoTargetSchedule)
      else if !HasInstallmentsAfter(target.entries, req.date) then Some(NothingToRecast)
      else None
    case Takeover =>
      if target.schedule.None? then Some(NoTargetSchedule)
      else if NetDisbursement(target) < amount then Some(NetTooSmall)
      else None
  }

  function Quote(l: Ledger, req: Request): Payoff {
    PayoffFor(View(l, req.source), req.date)
  }

  function Row(l: Ledger, req: Request): Transfer {
    var q := Quote(l, req);
    Transfer(req.id, req.source, req.target, q.amount, q.outstanding, req.date, ChosenMode(l, req))
  }

  /** The rows after the transfer is written. */
  function Moved(l: Ledger, req: Request): Ledger
    requires ChosenMode(l, req) == Opens ==> TermsGiven(req.terms)
  {
    var row := Row(l, req);
    var schedules := if row.mode == Opens
      then l.schedules[req.target :=
          Terms(row.amount, 0, req.terms.value.annualRateBps, req.terms.value.tenureMonths, req.terms.value.firstDue,
              None)]
      else l.schedules;
    l.(transfers := Insert(l.transfers, row), schedules := schedules)
  }

  /** Settles the source at its payoff on the date and moves the payoff to the
      target; `usable` says the target is the caller's own open loan account. */
  function TransferBalance(l: Ledger, req: Request, usable: bool): Result<Ledger> {
    var source := View(l, req.source);
    if req.source == req.target then Err(SameLoan)
    else if source.schedule.None? then Err(NoSourceSchedule)
    else if source.settledOn.Some? then Err(AlreadySettled)
    else if Quote(l, req).amount <= 0 then Err(NothingLeft)
    else if !usable then Err(TargetUnusable)
    else
      var refusal := CheckTarget(l, req, Quote(l, req).amount);
      if refusal.Some? then Err(refusal.value) else Ok(Moved(l, req))
  }

  function Find(ts: seq<Transfer>, id: int, source: LoanId): (i: nat)
    ensures i <= |ts|
    ensures i < |ts| ==> ts[i].id == id && ts[i].from == source
    ensures forall k :: 0 <= k < i ==> !(ts[k].id == id && ts[k].from == source)
  {
    if ts == [] || (ts[0].id == id && ts[0].from == source) then 0 else Find(ts[1..], id, source) + 1
  }

  predicate Untouched(ts: seq<Transfer>, loan: LoanId) {
    forall k :: 0 <= k < |ts| ==> ts[k].to != loan
  }

  // The rows once `row` is gone and `rest` is left.
  function Without(l: Ledger, row: Transfer, rest: seq<Transfer>): Result<Ledger> {
    if row.mode != Opens || row.to !in l.schedules then Ok(l.(transfers := rest))
    else if l.schedules[row.to].principal == row.amount && Untouched(rest, row.to)
      then Ok(Ledger(l.schedules - {row.to}, rest, l.payments))
    else Err(TargetChanged)
  }

  /** Deletes a transfer, and the schedule it opened while that schedule is
      still the one it opened; refuses when it no longer is. */
  function DeleteTransfer(l: Ledger, id: int, source: LoanId): Result<Ledger> {
    var i := Find(l.transfers, id, source);
    if i == |l.transfers| then Ok(l)
    else Without(l, l.transfers[i], l.transfers[..i] + l.transfers[i + 1..])
  }

  /** What the tables' constraints guarantee of the rows. */
  predicate RowsOk(ts: seq<Transfer>) {
    && (forall k :: 0 <= k < |ts| ==> ts[k].amount > 0 && ts[k].from != ts[k].to)
    && (forall j, k :: 0 <= j < k < |ts| ==> ts[j].id != ts[k].id && ts[j].from != ts[k].from)
    && (forall j, k :: 0 <= j < k < |ts| ==> !Before(ts[k].date, ts[j].date))
  }

  predicate LedgerOk(l: Ledger) {
    (forall loan :: loan in l.schedules ==> TermsOk(l.schedules[loan])) && RowsOk(l.transfers)
  }

  predicate FreshId(l: Ledger, id: int) {
    forall k :: 0 <= k < |l.transfers| ==> l.transfers[k].id != id
  }

  // ----- reading the rows of one loan

  lemma {:induction false} OwnAppend(loan: LoanId, a: seq<Transfer>, b: seq<Transfer>)
    ensures Own(loan, a + b) == Own(loan, a) + Own(loan, b)
  {
    if b == [] {
      assert a + b == a;
    } else {
      OwnAppend(loan, a, b[..|b| - 1]);
      assert (a + b)[..|a + b| - 1] == a + b[..|b| - 1];
    }
  }

  lemma {:induction false} AdjustmentsAppend(loan: LoanId, a: seq<Transfer>, b: seq<Transfer>)
    ensures Adjustments(loan, a + b) == Adjustments(loan, a) + Adjustments(loan, b)
  {
    if b == [] {
      assert a + b == a;
    } else {
      AdjustmentsAppend(loan, a, b[..|b| - 1]);
      assert (a + b)[..|a + b| - 1] == a + b[..|b| - 1];
    }
  }

  lemma {:induction false} SettledAppend(loan: LoanId, a: seq<Transfer>, b: seq<Transfer>)
    ensures SettledOn(loan, a + b) == if SettledOn(loan, b).Some? then SettledOn(loan, b) else SettledOn(loan, a)
  {
    if b == [] {
      assert a + b == a;
    } else {
      SettledAppend(loan, a, b[..|b| - 1]);
      assert (a + b)[..|a + b| - 1] == a + b[..|b| - 1];
    }
  }

  lemma {:induction false} PaidOutAppend(loan: LoanId, a: seq<Transfer>, b: seq<Transfer>)
    ensures PaidOut(loan, a + b) == PaidOut(loan, a) + PaidOut(loan, b)
  {
    if b == [] {
      assert a + b == a;
    } else {
      PaidOutAppend(loan, a, b[..|b| - 1]);
      assert (a + b)[..|a + b| - 1] == a + b[..|b| - 1];
    }
  }

  lemma OwnInsert(loan: LoanId, ts: seq<Transfer>, t: Transfer)
    ensures var p := Place(ts, t.date);
            && Own(loan, Insert(ts, t)) == Own(loan, ts[..p]) + Own(loan, [t]) + Own(loan, ts[p..])
            && Own(loan, ts) == Own(loan, ts[..p]) + Own(loan, ts[p..])
            && Own(loan, [t]) == if t.from == loan || t.to == loan then [t] else []
  {
    var p := Place(ts, t.date);
    OwnAppend(loan, ts[..p] + [t], ts[p..]);
    OwnAppend(loan, ts[..p], [t]);
    OwnAppend(loan, ts[..p], ts[p..]);
    assert ts[..p] + ts[p..] == ts;
    assert [t][..0] == [];
  }

  lemma OwnUntouched(loan: LoanId, ts: seq<Transfer>, t: Transfer)
    requires t.from != loan && t.to != loan
    ensures Own(loan, Insert(ts, t)) == Own(loan, ts)
  {
    OwnInsert(loan, ts, t);
    var a := Own(loan, ts[..Place(ts, t.date)]);
    assert a + [] == a;
  }

  lemma SchedulePresent(l: Ledger, loan: LoanId)
    ensures View(l, loan).schedule == ScheduleOf(l, loan)
  {
  }

  // What an accepted request has passed.
  lemma Accepted(l: Ledger, req: Request, usable: bool)
    requires TransferBalance(l, req, usable).Ok?
    ensures req.source != req.target && req.source in l.schedules && View(l, req.source).settledOn.None?
    ensures Quote(l, req).amount > 0 && CheckTarget(l, req, Quote(l, req).amount).None?
    ensures ChosenMode(l, req) == Opens ==> TermsGiven(req.terms) && req.target !in l.schedules
    ensures ChosenMode(l, req) != Opens ==> req.target in l.schedules
    ensures TransferBalance(l, req, usable).value == Moved(l, req)
  {
    SchedulePresent(l, req.source);
    SchedulePresent(l, req.target);
  }

  /** A transfer leaves every loan it does not touch as it was. */
  lemma OtherLoansStay(l: Ledger, req: Request, usable: bool, loan: LoanId)
    requires TransferBalance(l, req, usable).Ok? && loan != req.source && loan != req.target
    ensures View(TransferBalance(l, req, usable).value, loan) == View(l, loan)
  {
    Accepted(l, req, usable);
    OwnUntouched(loan, l.transfers, Row(l, req));
    var l' := Moved(l, req);
    assert ScheduleOf(l', loan) == ScheduleOf(l, loan) && PaymentsOf(l', loan) == PaymentsOf(l, loan);
  }

  // A row out of the loan settles it and recasts nothing.
  lemma OutgoingRow(loan: LoanId, ts: seq<Transfer>, row: Transfer)
    requires row.from == loan && row.to != loan && SettledOn(loan, Own(loan, ts)).None?
    ensures SettledOn(loan, Own(loan, Insert(ts, row))) == Some(row.date)
    ensures Adjustments(loan, Own(loan, Insert(ts, row))) == Adjustments(loan, Own(loan, ts))
  {
    var p := Place(ts, row.date);
    var a, b := Own(loan, ts[..p]), Own(loan, ts[p..]);
    OwnInsert(loan, ts, row);
    SettledAppend(loan, a, b);
    SettledAppend(loan, a + [row], b);
    SettledAppend(loan, a, [row]);
    AdjustmentsAppend(loan, a, b);
    AdjustmentsAppend(loan, a + [row], b);
    AdjustmentsAppend(loan, a, [row]);
    assert [row][..0] == [];
    assert Adjustments(loan, a) + [] == Adjustments(loan, a);
  }

  lemma SettledEntries(t: Terms, adj: seq<Adjustment>, on: Date, x: int, y: int, ps: seq<Payment>, emi: int,
                       table: seq<Entry>)
    ensures var before, after := DetailFrom(t, adj, None, x, ps, emi, table),
              DetailFrom(t, adj, Some(on), y, ps, emi, table);
            && after.settledOn == Some(on) && after.outstanding == 0 && after.completed
            && |after.entries| == |before.entries| && after.paidInstallments == before.paidInstallments
            && forall i :: 0 <= i < |after.entries| ==>
                 after.entries[i] == before.entries[i].(cancelled := !before.entries[i].paid)
  {
  }

  /** The source is settled: nothing is owed, every unpaid installment is void,
      and what was paid stays paid, figure for figure. */
  lemma TransferSettlesTheSource(l: Ledger, req: Request, usable: bool)
    requires TransferBalance(l, req, usable).Ok?
    ensures var before, after := View(l, req.source), View(TransferBalance(l, req, usable).value, req.source);
            && after.settledOn == Some(req.date) && after.outstanding == 0 && after.completed
            && |after.entries| == |before.entries| && after.paidInstallments == before.paidInstallments
            && forall i :: 0 <= i < |after.entries| ==>
                 after.entries[i] == before.entries[i].(cancelled := !before.entries[i].paid)
  {
    Accepted(l, req, usable);
    var loan, row, t := req.source, Row(l, req), l.schedules[req.source];
    OutgoingRow(loan, l.transfers, row);
    var own, own' := Own(loan, l.transfers), Own(loan, Insert(l.transfers, row));
    var adj := Adjustments(loan, own);
    SettledEntries(t, adj, req.date, PaidOut(loan, own), PaidOut(loan, own'), PaymentsOf(l, loan),
      LastEMI(t, adj, Quoted(t)), Table(t, adj, Quoted(t)));
  }

  // ----- the recast target

  lemma OneRow(loan: LoanId, t: Transfer)
    ensures Adjustments(loan, [t]) == if t.to == loan && t.mode == Recast then [Adjustment(t.date, t.amount)] else []
    ensures SettledOn(loan, [t]) == if t.to != loan then Some(t.date) else None
    ensures PaidOut(loan, [t]) == if t.to == loan && t.mode == Takeover then t.amount else 0
  {
    assert [t][..0] == [];
  }

  // The loan's adjustments, one more row at the end.
  lemma AdjustmentsLast(loan: LoanId, ts: seq<Transfer>)
    requires ts != []
    ensures var t := ts[|ts| - 1];
            Adjustments(loan, Own(loan, ts)) == Adjustments(loan, Own(loan, ts[..|ts| - 1]))
              + if t.to == loan && t.mode == Recast then [Adjustment(t.date, t.amount)] else []
  {
    var t, own := ts[|ts| - 1], Own(loan, ts[..|ts| - 1]);
    OneRow(loan, t);
    AdjustmentsAppend(loan, own, [t]);
    assert own + [] == own;
  }

  predicate DatesAfter(ts: seq<Transfer>, d: Date) {
    forall k :: 0 <= k < |ts| ==> Before(d, ts[k].date)
  }

  lemma {:induction false} AdjustmentsFrom(loan: LoanId, ts: seq<Transfer>, d: Date)
    requires DatesAfter(ts, d)
    ensures forall k :: 0 <= k < |Adjustments(loan, Own(loan, ts))| ==>
              Before(d, Adjustments(loan, Own(loan, ts))[k].date)
  {
    if ts != [] {
      var init, t := ts[..|ts| - 1], ts[|ts| - 1];
      AdjustmentsFrom(loan, init, d);
      AdjustmentsLast(loan, ts);
      assert Before(d, t.date);
    }
  }

  lemma {:induction false} AdjustmentsPositive(loan: LoanId, ts: seq<Transfer>)
    requires forall k :: 0 <= k < |ts| ==> ts[k].amount > 0
    ensures AdjustmentsOk(Adjustments(loan, Own(loan, ts)))
  {
    if ts != [] {
      var init, t := ts[..|ts| - 1], ts[|ts| - 1];
      AdjustmentsPositive(loan, init);
      AdjustmentsLast(loan, ts);
      assert t.amount > 0;
    }
  }

  lemma IncomingKeeps(loan: LoanId, ts: seq<Transfer>, row: Transfer)
    requires row.to == loan && row.from != loan && row.mode == Recast
    ensures SettledOn(loan, Own(loan, Insert(ts, row))) == SettledOn(loan, Own(loan, ts))
    ensures PaidOut(loan, Own(loan, Insert(ts, row))) == PaidOut(loan, Own(loan, ts))
  {
    var p := Place(ts, row.date);
    var a, b := Own(loan, ts[..p]), Own(loan, ts[p..]);
    OwnInsert(loan, ts, row);
    OneRow(loan, row);
    SettledAppend(loan, a, b);
    SettledAppend(loan, a + [row], b);
    SettledAppend(loan, a, [row]);
    PaidOutAppend(loan, a, b);
    PaidOutAppend(loan, a + [row], b);
    PaidOutAppend(loan, a, [row]);
  }

  lemma IncomingAdjusts(loan: LoanId, ts: seq<Transfer>, row: Transfer)
    requires row.to == loan && row.from != loan && row.mode == Recast
    ensures var p := Place(ts, row.date);
            var before, after := Adjustments(loan, Own(loan, ts[..p])), Adjustments(loan, Own(loan, ts[p..]));
            && Adjustments(loan, Own(loan, ts)) == before + after
            && Adjustments(loan, Own(loan, Insert(ts, row))) == before + [Adjustment(row.date, row.amount)] + after
  {
    var p := Place(ts, row.date);
    var a, b := Own(loan, ts[..p]), Own(loan, ts[p..]);
    OwnInsert(loan, ts, row);
    OneRow(loan, row);
    AdjustmentsAppend(loan, a, b);
    AdjustmentsAppend(loan, a + [row], b);
    AdjustmentsAppend(loan, a, [row]);
  }

  lemma PlaceIsBefore(ts: seq<Transfer>, d: Date)
    requires forall j, k :: 0 <= j < k < |ts| ==> !Before(ts[k].date, ts[j].date)
    ensures DatesAfter(ts[Place(ts, d)..], d)
  {
    var p := Place(ts, d);
    forall k | 0 <= k < |ts[p..]| ensures Before(d, ts[p..][k].date) {
      assert ts[p..][k] == ts[p + k];
      assert k > 0 ==> !Before(ts[p + k].date, ts[p].date);
    }
  }

  /** A recast row becomes one adjustment in its place by date. */
  lemma IncomingRow(loan: LoanId, ts: seq<Transfer>, row: Transfer) returns (q: nat)
    requires row.to == loan && row.from != loan && row.mode == Recast
    requires forall j, k :: 0 <= j < k < |ts| ==> !Before(ts[k].date, ts[j].date)
    ensures var adj := Adjustments(loan, Own(loan, ts));
            && q <= |adj| && (q < |adj| ==> Before(row.date, adj[q].date))
            && Adjustments(loan, Own(loan, Insert(ts, row))) == adj[..q] + [Adjustment(row.date, row.amount)] + adj[q..]
  {
    var p := Place(ts, row.date);
    IncomingAdjusts(loan, ts, row);
    var before, after := Adjustments(loan, Own(loan, ts[..p])), Adjustments(loan, Own(loan, ts[p..]));
    q := |before|;
    PlaceIsBefore(ts, row.date);
    AdjustmentsFrom(loan, ts[p..], row.date);
    assert (before + after)[..q] == before && (before + after)[q..] == after;
  }

  lemma {:induction false} AmountSumAppend(a: seq<Adjustment>, b: seq<Adjustment>)
    ensures AmountSum(a + b) == AmountSum(a) + AmountSum(b)
  {
    if b == [] {
      assert a + b == a;
    } else {
      AmountSumAppend(a, b[..|b| - 1]);
      assert (a + b)[..|a + b| - 1] == a + b[..|b| - 1];
    }
  }

  lemma AmountSumInsert(adj: seq<Adjustment>, q: nat, a: Adjustment)
    requires q <= |adj|
    ensures AmountSum(adj[..q] + [a] + adj[q..]) == AmountSum(adj) + a.amount
  {
    AmountSumAppend(adj[..q] + [a], adj[q..]);
    AmountSumAppend(adj[..q], [a]);
    AmountSumAppend(adj[..q], adj[q..]);
    assert adj[..q] + adj[q..] == adj && [a][..0] == [];
  }

  lemma LiveWhenOwing(l: Ledger, loan: LoanId, d: Date)
    requires HasInstallmentsAfter(View(l, loan).entries, d)
    ensures View(l, loan).settledOn.None?
  {
  }

  lemma DueAt(t: Terms, adj: seq<Adjustment>, solve: Solver, k: int)
    requires 1 <= k <= t.tenureMonths
    ensures Table(t, adj, solve)[k - 1].due == Due(t, k)
  {
    EntriesStay(t, adj, solve, k, t.tenureMonths);
    assert Table(t, adj, solve)[k - 1] == Table(t, adj, solve)[..k][k - 1];
  }

  lemma PaidAreCovered(l: Ledger, loan: LoanId)
    requires loan in l.schedules && TermsOk(l.schedules[loan])
    ensures var d, t := View(l, loan), l.schedules[loan];
            && d.paidInstallments == Covered(PaymentsOf(l, loan), t.tenureMonths)
            && |d.entries| == t.tenureMonths
            && (d.paidInstallments >= 1 ==> d.entries[d.paidInstallments - 1].paid)
            && (d.paidInstallments >= 1 ==> d.entries[d.paidInstallments - 1].due == Due(t, d.paidInstallments))
  {
    var d, t := View(l, loan), l.schedules[loan];
    var adj := Adjustments(loan, Own(loan, l.transfers));
    if d.paidInstallments >= 1 {
      DueAt(t, adj, Quoted(t), d.paidInstallments);
    }
  }

  // How many of the first `n` installments are due on or before `d`.
  function DueBy(t: Terms, d: Date, n: nat): (j: nat)
    ensures j <= n && (j >= 1 ==> !Before(d, Due(t, j)))
  {
    if n == 0 || !Before(d, Due(t, n)) then n else DueBy(t, d, n - 1)
  }

  /** The principal the table charges in those of the first `m` installments
      that fall due after `d`. */
  function ChargedAhead(t: Terms, adj: seq<Adjustment>, d: Date, m: nat): int
    requires m <= |Table(t, adj, Quoted(t))|
  {
    PrincipalSum(Table(t, adj, Quoted(t))[DueBy(t, d, m)..m])
  }

  function AdjustmentsOf(l: Ledger, loan: LoanId): seq<Adjustment> {
    Adjustments(loan, Own(loan, l.transfers))
  }

  lemma SplitAt(entries: seq<Entry>, j: nat, m: nat)
    requires j <= m <= |entries|
    ensures PrincipalSum(entries[..m]) == PrincipalSum(entries[..j]) + PrincipalSum(entries[j..m])
  {
    PrincipalSumSplit(entries[..m], j);
    assert entries[..m][..j] == entries[..j] && entries[..m][j..] == entries[j..m];
  }

  // On the derived loan: one more adjustment.
  lemma RecastDetail(t: Terms, adj: seq<Adjustment>, q: nat, a: Adjustment, paidOut: int, ps: seq<Payment>)
    requires TermsOk(t) && AdjustmentsOk(adj) && a.amount >= 0
    requires q <= |adj| && (q < |adj| ==> Before(a.date, adj[q].date))
    ensures var adj', m := adj[..q] + [a] + adj[q..], Covered(ps, t.tenureMonths);
            var before := DetailFrom(t, adj, None, paidOut, ps, LastEMI(t, adj, Quoted(t)), Table(t, adj, Quoted(t)));
            var after := DetailFrom(t, adj', None, paidOut, ps, LastEMI(t, adj', Quoted(t)), Table(t, adj', Quoted(t)));
            && after.paidInstallments == before.paidInstallments == m
            && after.outstanding + after.principalPaid == before.outstanding + before.principalPaid + a.amount
            && after.principalPaid - before.principalPaid
                 == ChargedAhead(t, adj', a.date, m) - ChargedAhead(t, adj, a.date, m)
  {
    var adj', m := adj[..q] + [a] + adj[q..], Covered(ps, t.tenureMonths);
    var j := DueBy(t, a.date, m);
    AmountSumInsert(adj, q, a);
    LeftIsUnpaid(t, adj, m);
    LeftIsUnpaid(t, adj', m);
    EarlierInstallmentsStay(t, adj, q, a, Quoted(t), j);
    SplitAt(Table(t, adj, Quoted(t)), j, m);
    SplitAt(Table(t, adj', Quoted(t)), j, m);
  }

  /** A recast raises what the target owes by the payoff, less what its new table
      charges over the old one in the installments paid ahead of the transfer
      date; so it raises it by the payoff exactly when the two tables charge
      those installments the same. */
  lemma RecastRaisesTheTarget(l: Ledger, req: Request, usable: bool)
    requires LedgerOk(l) && TransferBalance(l, req, usable).Ok? && ChosenMode(l, req) == Recast
    ensures req.target in l.schedules
    ensures var l', t := TransferBalance(l, req, usable).value, l.schedules[req.target];
            var before, after := View(l, req.target), View(l', req.target);
            var m := Covered(PaymentsOf(l, req.target), t.tenureMonths);
            && m <= t.tenureMonths && after.settledOn.None? && after.paidInstallments == before.paidInstallments == m
            && var more := ChargedAhead(t, AdjustmentsOf(l', req.target), req.date, m)
                           - ChargedAhead(t, AdjustmentsOf(l, req.target), req.date, m);
               && after.outstanding == before.outstanding + Quote(l, req).amount - more
               && after.principalPaid == before.principalPaid + more
               && (after.outstanding == before.outstanding + Quote(l, req).amount <==> more == 0)
  {
    Accepted(l, req, usable);
    var loan, row, t := req.target, Row(l, req), l.schedules[req.target];
    LiveWhenOwing(l, loan, req.date);
    var q := IncomingRow(loan, l.transfers, row);
    IncomingKeeps(loan, l.transfers, row);
    AdjustmentsPositive(loan, l.transfers);
    var own := Own(loan, l.transfers);
    RecastDetail(t, Adjustments(loan, own), q, Adjustment(row.date, row.amount), PaidOut(loan, own),
        PaymentsOf(l, loan));
  }

  /** When the target's paid installments fell due by the transfer date nothing
      was paid ahead: a recast raises what it owes by exactly the payoff and
      leaves what was paid as it was. */
  lemma RecastRaisesTheTargetByThePayoff(l: Ledger, req: Request, usable: bool)
    requires LedgerOk(l) && TransferBalance(l, req, usable).Ok? && ChosenMode(l, req) == Recast
    requires forall i :: 0 <= i < |View(l, req.target).entries| && View(l, req.target).entries[i].paid ==>
               !Before(req.date, View(l, req.target).entries[i].due)
    ensures var before, after := View(l, req.target), View(TransferBalance(l, req, usable).value, req.target);
            && after.outstanding == before.outstanding + Quote(l, req).amount
            && after.settledOn.None? && after.paidInstallments == before.paidInstallments
            && after.principalPaid == before.principalPaid && after.interestPaid == before.interestPaid
  {
    Accepted(l, req, usable);
    var loan, row, t := req.target, Row(l, req), l.schedules[req.target];
    RecastRaisesTheTarget(l, req, usable);
    PaidAreCovered(l, loan);
    var m := Covered(PaymentsOf(l, loan), t.tenureMonths);
    var q := IncomingRow(loan, l.transfers, row);
    IncomingKeeps(loan, l.transfers, row);
    EarlierInstallmentsStay(t, AdjustmentsOf(l, loan), q, Adjustment(row.date, row.amount), Quoted(t), m);
  }

  /** Together: what the two loans owe rises by the interest the source had
      accrued and by nothing else, exactly when the target's installments paid
      ahead are charged as before. */
  lemma TransferConservesWhatIsOwed(l: Ledger, req: Request, usable: bool)
    requires LedgerOk(l) && TransferBalance(l, req, usable).Ok? && ChosenMode(l, req) == Recast
    ensures req.target in l.schedules
    ensures var l', t := TransferBalance(l, req, usable).value, l.schedules[req.target];
            var m := Covered(PaymentsOf(l, req.target), t.tenureMonths);
            && m <= t.tenureMonths
            && (View(l', req.source).outstanding + View(l', req.target).outstanding
                  == View(l, req.source).outstanding + View(l, req.target).outstanding + Quote(l, req).accrued
                <==> ChargedAhead(t, AdjustmentsOf(l', req.target), req.date, m)
                     == ChargedAhead(t, AdjustmentsOf(l, req.target), req.date, m))
  {
    Accepted(l, req, usable);
    TransferSettlesTheSource(l, req, usable);
    RecastRaisesTheTarget(l, req, usable);
  }

  // ----- deleting a transfer

  lemma {:induction false} NoOutgoing(loan: LoanId, ts: seq<Transfer>)
    requires SettledOn(loan, Own(loan, ts)).None?
    ensures forall k :: 0 <= k < |ts| && ts[k].from == loan ==> ts[k].to == loan
  {
    if ts != [] {
      var t, init := ts[|ts| - 1], ts[..|ts| - 1];
      OneRow(loan, t);
      SettledAppend(loan, Own(loan, init), [t]);
      assert Own(loan, init) + [] == Own(loan, init);
      NoOutgoing(loan, init);
    }
  }

  lemma InsertMembers(ts: seq<Transfer>, t: Transfer)
    ensures var p := Place(ts, t.date);
            && |Insert(ts, t)| == |ts| + 1 && Insert(ts, t)[p] == t
            && (forall k :: 0 <= k < p ==> Insert(ts, t)[k] == ts[k])
            && (forall k :: p < k <= |ts| ==> Insert(ts, t)[k] == ts[k - 1])
  {
  }

  lemma InsertRemoved(ts: seq<Transfer>, t: Transfer)
    ensures var p := Place(ts, t.date); p <= |Insert(ts, t)| - 1 && Insert(ts, t)[..p] + Insert(ts, t)[p + 1..] == ts
  {
    var p := Place(ts, t.date);
    assert Insert(ts, t)[..p] == ts[..p] && Insert(ts, t)[p + 1..] == ts[p..];
    assert ts[..p] + ts[p..] == ts;
  }

  lemma InsertSorted(ts: seq<Transfer>, t: Transfer)
    requires forall j, k :: 0 <= j < k < |ts| ==> !Before(ts[k].date, ts[j].date)
    ensures var r := Insert(ts, t); forall j, k :: 0 <= j < k < |r| ==> !Before(r[k].date, r[j].date)
  {
    var r, p := Insert(ts, t), Place(ts, t.date);
    InsertMembers(ts, t);
    PlaceIsBefore(ts, t.date);
    forall j, k | 0 <= j < k < |r| ensures !Before(r[k].date, r[j].date) {
      if k > p {
        assert r[k] == ts[p..][k - 1 - p];
        assert Before(t.date, r[k].date);
      }
    }
  }

  predicate Unlike(a: Transfer, b: Transfer) {
    a.id != b.id && a.from != b.from
  }

  lemma InsertApart(ts: seq<Transfer>, t: Transfer)
    requires forall j, k :: 0 <= j < k < |ts| ==> Unlike(ts[j], ts[k])
    requires forall k :: 0 <= k < |ts| ==> Unlike(ts[k], t)
    ensures var r := Insert(ts, t); forall j, k :: 0 <= j < k < |r| ==> Unlike(r[j], r[k])
  {
    var r, p := Insert(ts, t), Place(ts, t.date);
    InsertMembers(ts, t);
    forall j, k | 0 <= j < k < |r|
      ensures Unlike(r[j], r[k])
    {
      var a, b := if j < p then j else j - 1, if k < p then k else k - 1;
      if j != p && k != p {
        assert r[j] == ts[a] && r[k] == ts[b];
      }
    }
  }

  lemma InsertRowsOk(ts: seq<Transfer>, t: Transfer)
    requires RowsOk(ts) && t.amount > 0 && t.from != t.to
    requires forall k :: 0 <= k < |ts| ==> ts[k].id != t.id && ts[k].from != t.from
    ensures RowsOk(Insert(ts, t))
  {
    InsertMembers(ts, t);
    InsertSorted(ts, t);
    InsertApart(ts, t);
  }

  lemma OpenedTermsOk(l: Ledger, req: Request)
    requires LedgerOk(l) && Quote(l, req).amount > 0
    requires ChosenMode(l, req) == Opens ==> TermsGiven(req.terms)
    ensures forall loan :: loan in Moved(l, req).schedules ==> TermsOk(Moved(l, req).schedules[loan])
  {
  }

  /** Every accepted transfer keeps what the tables guarantee, so a loan is
      settled at most once and the rows stay in the order they take effect. */
  lemma TransferKeepsTheLedger(l: Ledger, req: Request, usable: bool)
    requires LedgerOk(l) && FreshId(l, req.id) && TransferBalance(l, req, usable).Ok?
    ensures LedgerOk(TransferBalance(l, req, usable).value)
  {
    Accepted(l, req, usable);
    NoOutgoing(req.source, l.transfers);
    assert forall k :: 0 <= k < |l.transfers| ==> l.transfers[k].from != req.source;
    InsertRowsOk(l.transfers, Row(l, req));
    OpenedTermsOk(l, req);
  }

  lemma RemoveRowsOk(ts: seq<Transfer>, i: nat)
    requires RowsOk(ts) && i < |ts|
    ensures RowsOk(ts[..i] + ts[i + 1..])
  {
    var rest := ts[..i] + ts[i + 1..];
    assert forall k :: 0 <= k < |rest| ==> rest[k] == ts[if k < i then k else k + 1];
  }

  lemma DeleteKeepsTheLedger(l: Ledger, id: int, source: LoanId)
    requires LedgerOk(l) && DeleteTransfer(l, id, source).Ok?
    ensures LedgerOk(DeleteTransfer(l, id, source).value)
  {
    var i := Find(l.transfers, id, source);
    if i < |l.transfers| {
      RemoveRowsOk(l.transfers, i);
    }
  }

  lemma FindAt(ts: seq<Transfer>, id: int, source: LoanId, p: nat)
    requires p < |ts| && ts[p].id == id && ts[p].from == source
    requires forall k :: 0 <= k < |ts| && k != p ==> ts[k].id != id
    ensures Find(ts, id, source) == p
  {
    var i := Find(ts, id, source);
    assert i <= p;
  }

  lemma FindsTheRow(l: Ledger, req: Request)
    requires FreshId(l, req.id) && (ChosenMode(l, req) == Opens ==> TermsGiven(req.terms))
    ensures var ts := Moved(l, req).transfers;
            var i := Find(ts, req.id, req.source);
            i < |ts| && ts[i] == Row(l, req) && ts[..i] + ts[i + 1..] == l.transfers
  {
    InsertMembers(l.transfers, Row(l, req));
    InsertRemoved(l.transfers, Row(l, req));
    FindAt(Moved(l, req).transfers, req.id, req.source, Place(l.transfers, req.date));
  }

  lemma WithoutTheRow(l: Ledger, req: Request)
    requires ChosenMode(l, req) == Opens ==> TermsGiven(req.terms) && req.target !in l.schedules
    ensures Without(Moved(l, req), Row(l, req), l.transfers) == Ok(l)
       <==> ChosenMode(l, req) != Opens || Untouched(l.transfers, req.target)
  {
    var row, l' := Row(l, req), Moved(l, req);
    assert row.to == req.target && row.mode == ChosenMode(l, req);
    if ChosenMode(l, req) == Opens {
      assert l'.schedules - {req.target} == l.schedules;
    }
  }

  /** Deleting the transfer just made restores every row, unless it opened the
      target's schedule while another transfer had already landed there: then
      the delete is refused. */
  lemma DeleteUndoesTransfer(l: Ledger, req: Request, usable: bool)
    requires FreshId(l, req.id) && TransferBalance(l, req, usable).Ok?
    ensures DeleteTransfer(TransferBalance(l, req, usable).value, req.id, req.source) == Ok(l)
       <==> ChosenMode(l, req) != Opens || Untouched(l.transfers, req.target)
  {
    Accepted(l, req, usable);
    FindsTheRow(l, req);
    WithoutTheRow(l, req);
  }

  // ----- when paid installments fall due after the transfer

  lemma InterestFree(t: Terms, balance: int, k: int)
    requires t.annualRateBps == 0 && Stub(t).None?
    ensures InterestAt(t, balance, k) == 0
  {
    assert balance as real * MonthlyRate(0) == 0.0;
  }

  // One installment of an interest-free loan.
  lemma InterestFreeStep(t: Terms, adj: seq<Adjustment>, run: Run, k: nat, next: nat, balance: int)
    requires t.annualRateBps == 0 && Stub(t).None? && 1 <= k < t.tenureMonths
    ensures var r := Settle(t, Quoted(t), run, k, next, balance);
            && r.next == next && r.emi == (if next > run.next then SolveEMI(t, balance, k) else run.emi)
            && (0 < r.emi < balance ==>
                  r.remaining == balance - r.emi && PrincipalSum(r.entries) == PrincipalSum(run.entries) + r.emi)
  {
    InterestFree(t, balance, k);
    var r := Settle(t, Quoted(t), run, k, next, balance);
    assert r.entries[..|run.entries|] == run.entries;
  }

  lemma PaidPrincipal(t: Terms, adj: seq<Adjustment>, m: nat)
    requires 1 <= t.tenureMonths && m <= t.tenureMonths
    ensures PrincipalSum(Table(t, adj, Quoted(t))[..m]) == PrincipalSum(RunAt(t, adj, Quoted(t), m).entries)
  {
    EntriesStay(t, adj, Quoted(t), m, t.tenureMonths);
  }

  function SmallLoan(principal: int): Terms {
    Terms(principal, 0, 0, 1, CivilDate(24301, 1), None)
  }

  /** A ledger of two interest-free loans: 1 with these terms and payments, and
      2, all of it still owed. */
  function TwoLoans(t: Terms, ps: seq<Payment>, owed: int): Ledger {
    Ledger(map[1 := t, 2 := SmallLoan(owed)], [], map[1 := ps])
  }

  function MoveTwoToOne(d: Date): Request {
    Request(1, 2, 1, d, None, None)
  }

  lemma NothingMoved(l: Ledger, loan: LoanId)
    requires l.transfers == [] && loan in l.schedules
    ensures View(l, loan) == DetailFrom(l.schedules[loan], [], None, 0, PaymentsOf(l, loan),
              LastEMI(l.schedules[loan], [], Quoted(l.schedules[loan])),
                  Table(l.schedules[loan], [], Quoted(l.schedules[loan])))
  {
  }

  lemma SmallPayoff(t: Terms, ps: seq<Payment>, owed: int, d: Date)
    requires owed > 0
    ensures Quote(TwoLoans(t, ps, owed), MoveTwoToOne(d)).amount == owed
    ensures View(TwoLoans(t, ps, owed), 2).settledOn.None?
  {
    var l := TwoLoans(t, ps, owed);
    NothingMoved(l, 2);
    var source := View(l, 2);
    assert PaymentsOf(l, 2) == [];
    assert Covered([], |Table(SmallLoan(owed), [], Quoted(SmallLoan(owed)))|) == 0;
    assert source.outstanding == owed;
    assert owed as real * 0 as real / 120000.0 == 0.0;
    assert BrokenPeriodInterest(owed, 0, ToDay(d) - ToDay(PayoffAnchor(source, d))) == 0;
  }

  lemma OneTransferIn(t: Terms, ps: seq<Payment>, row: Transfer)
    requires row.to == 1 && row.from != 1 && row.mode == Recast && row.amount >= 0 && TermsOk(t)
    requires Debits(ps) < t.tenureMonths
    ensures DetailOf(1, Some(t), [row], ps).outstanding
              == t.principal + row.amount - PrincipalSum(Table(t, [Adjustment(row.date, row.amount)],
                  Quoted(t))[..Debits(ps)])
  {
    OneRow(1, row);
    var adj := [Adjustment(row.date, row.amount)];
    assert adj[..0] == [];
    LeftIsUnpaid(t, adj, Debits(ps));
  }

  lemma StillAhead(t: Terms, ps: seq<Payment>, owed: int, d: Date)
    requires TermsOk(t) && Debits(ps) < t.tenureMonths && Before(d, Due(t, t.tenureMonths))
    ensures HasInstallmentsAfter(View(TwoLoans(t, ps, owed), 1).entries, d)
    ensures View(TwoLoans(t, ps, owed), 1).outstanding
              == t.principal - PrincipalSum(Table(t, [], Quoted(t))[..Debits(ps)])
  {
    NothingMoved(TwoLoans(t, ps, owed), 1);
    DueAt(t, [], Quoted(t), t.tenureMonths);
    var entries := View(TwoLoans(t, ps, owed), 1).entries;
    assert !entries[t.tenureMonths - 1].paid && Before(d, entries[t.tenureMonths - 1].due);
    LeftIsUnpaid(t, [], Debits(ps));
  }

  lemma OwnOne(loan: LoanId, t: Transfer)
    requires t.from == loan || t.to == loan
    ensures Own(loan, [t]) == [t]
  {
    assert [t][..0] == [];
  }

  lemma MoveIsAccepted(t: Terms, ps: seq<Payment>, owed: int, d: Date)
    requires owed > 0 && HasInstallmentsAfter(View(TwoLoans(t, ps, owed), 1).entries, d)
    ensures TransferBalance(TwoLoans(t, ps, owed), MoveTwoToOne(d), true)
              == Ok(Moved(TwoLoans(t, ps, owed), MoveTwoToOne(d)))
  {
    var l, req := TwoLoans(t, ps, owed), MoveTwoToOne(d);
    SmallPayoff(t, ps, owed, d);
    SchedulePresent(l, 1);
    SchedulePresent(l, 2);
    assert CheckTarget(l, req, owed).None?;
  }

  lemma MovedView(t: Terms, ps: seq<Payment>, owed: int, d: Date)
    ensures var row := Row(TwoLoans(t, ps, owed), MoveTwoToOne(d));
            View(Moved(TwoLoans(t, ps, owed), MoveTwoToOne(d)), 1) == DetailOf(1, Some(t), [row], ps)
  {
    var row := Row(TwoLoans(t, ps, owed), MoveTwoToOne(d));
    assert Insert([], row) == [row];
    OwnOne(1, row);
  }

  // The second loan's balance moved to the first, with an installment of it
  // still ahead.
  lemma MovesTheBalance(t: Terms, ps: seq<Payment>, owed: int, d: Date) returns (after: Ledger)
    requires owed > 0 && TermsOk(t) && Debits(ps) < t.tenureMonths && Before(d, Due(t, t.tenureMonths))
    ensures LedgerOk(TwoLoans(t, ps, owed))
    ensures TransferBalance(TwoLoans(t, ps, owed), MoveTwoToOne(d), true) == Ok(after)
    ensures View(TwoLoans(t, ps, owed), 1).outstanding
              == t.principal - PrincipalSum(Table(t, [], Quoted(t))[..Debits(ps)])
    ensures View(after, 1).outstanding
              == t.principal + owed - PrincipalSum(Table(t, [Adjustment(d, owed)], Quoted(t))[..Debits(ps)])
  {
    var row := Row(TwoLoans(t, ps, owed), MoveTwoToOne(d));
    SmallPayoff(t, ps, owed, d);
    StillAhead(t, ps, owed, d);
    after := Moved(TwoLoans(t, ps, owed), MoveTwoToOne(d));
    MoveIsAccepted(t, ps, owed, d);
    OneTransferIn(t, ps, row);
    MovedView(t, ps, owed, d);
  }

  const PREPAID_LOAN := Terms(20000, 0, 0, 2, CivilDate(24300, 1), None)

  lemma PrepaidTables(d: Date)
    requires Before(d, PREPAID_LOAN.firstDue)
    ensures PrincipalSum(Table(PREPAID_LOAN, [], Quoted(PREPAID_LOAN))[..1]) == 10000
    ensures PrincipalSum(Table(PREPAID_LOAN, [Adjustment(d, 20000)], Quoted(PREPAID_LOAN))[..1]) == 20000
  {
    var t, adj := PREPAID_LOAN, [Adjustment(d, 20000)];
    assert ExactEMI(20000, 0.0, 2) == 10000.0 && ExactEMI(40000, 0.0, 2) == 20000.0;
    assert SolveEMI(t, 20000, 1) == 10000 && SolveEMI(t, 40000, 1) == 20000;
    PaidPrincipal(t, [], 1);
    PaidPrincipal(t, adj, 1);
    InterestFreeStep(t, [], RunAt(t, [], Quoted(t), 0), 1, 0, 20000);
    assert OwedBy(adj, 0, Due(t, 1)) == 1 && adj[0..1] == adj && adj[..0] == [];
    InterestFreeStep(t, adj, RunAt(t, adj, Quoted(t), 0), 1, 1, 40000);
  }

  /** An interest-free loan of 200.00 over two months, its first installment
      paid before the transfer date but due after it: taking over another 200.00
      adds only 100.00 to what it owes, because the installment already paid is
      recast to 200.00 with the rest. */
  lemma PrepaidRecastAddsLess(d: Date) returns (l: Ledger, after: Ledger)
    requires Before(d, PREPAID_LOAN.firstDue)
    ensures LedgerOk(l) && TransferBalance(l, MoveTwoToOne(d), true) == Ok(after)
    ensures Quote(l, MoveTwoToOne(d)).amount == 20000
    ensures View(l, 1).outstanding == 10000 && View(after, 1).outstanding == 20000
  {
    var ps := [Payment(10000, d, false)];
    assert ps[..0] == [] && Debits(ps) == 1;
    l := TwoLoans(PREPAID_LOAN, ps, 20000);
    SmallPayoff(PREPAID_LOAN, ps, 20000, d);
    PrepaidTables(d);
    after := MovesTheBalance(PREPAID_LOAN, ps, 20000, d);
  }

  const LONG_LOAN := Terms(20100, 0, 0, 200, CivilDate(24300, 1), None)

  lemma LongInstallments()
    ensures SolveEMI(LONG_LOAN, 20100, 1) == 200 && SolveEMI(LONG_LOAN, 19901, 2) == 100
    ensures Due(LONG_LOAN, 1) == CivilDate(24300, 1) && Due(LONG_LOAN, 2) == CivilDate(24301, 1)
  {
    assert ExactEMI(20100, 0.0, 200) == 100.5;
    assert Round(100.5) == 101;
    assert ExactEMI(19901, 0.0, 199) == 19901.0 / 199.0;
    assert Round(19901.0 / 199.0) == 100;
  }

  // The loan after its first installment, whatever was transferred in since.
  lemma LongFirst(adj: seq<Adjustment>)
    requires OwedBy(adj, 0, Due(LONG_LOAN, 1)) == 0
    ensures var r := RunAt(LONG_LOAN, adj, Quoted(LONG_LOAN), 1);
            r.remaining == 19900 && r.emi == 200 && r.next == 0 && PrincipalSum(r.entries) == 200
  {
    LongInstallments();
    assert adj[0..0] == [];
    InterestFreeStep(LONG_LOAN, adj, RunAt(LONG_LOAN, adj, Quoted(LONG_LOAN), 0), 1, 0, 20100);
  }

  lemma NoTransferStep(t: Terms, adj: seq<Adjustment>, run: Run, k: nat)
    requires adj == [] && run.next == 0
    ensures Step(t, adj, Quoted(t), run, k) == Settle(t, Quoted(t), run, k, 0, run.remaining)
  {
    assert adj[0..0] == [];
  }

  lemma SecondOfLong(run: Run)
    requires run.remaining == 19900 && run.emi == 200 && run.next == 0
    ensures PrincipalSum(Settle(LONG_LOAN, Quoted(LONG_LOAN), run, 2, 0, 19900).entries)
              == PrincipalSum(run.entries) + 200
  {
    InterestFreeStep(LONG_LOAN, [], run, 2, 0, 19900);
  }

  lemma LongPlain(adj: seq<Adjustment>)
    requires adj == []
    ensures PrincipalSum(Table(LONG_LOAN, adj, Quoted(LONG_LOAN))[..2]) == 400
  {
    var run := RunAt(LONG_LOAN, adj, Quoted(LONG_LOAN), 1);
    LongFirst(adj);
    PaidPrincipal(LONG_LOAN, adj, 2);
    NoTransferStep(LONG_LOAN, adj, run, 2);
    SecondOfLong(run);
  }

  lemma LongRecast(d: Date)
    requires !Before(d, Due(LONG_LOAN, 1)) && Before(d, Due(LONG_LOAN, 2))
    ensures PrincipalSum(Table(LONG_LOAN, [Adjustment(d, 1)], Quoted(LONG_LOAN))[..2]) == 300
  {
    var adj := [Adjustment(d, 1)];
    LongFirst(adj);
    LongInstallments();
    PaidPrincipal(LONG_LOAN, adj, 2);
    assert adj[0..1] == adj && adj[..0] == [];
    InterestFreeStep(LONG_LOAN, adj, RunAt(LONG_LOAN, adj, Quoted(LONG_LOAN), 1), 2, 1, 19901);
  }

  lemma LastDueIsLater(d: Date)
    requires Before(d, Due(LONG_LOAN, 2))
    ensures Before(d, Due(LONG_LOAN, 200))
  {
    AnchoredIncreasing(LONG_LOAN.firstDue, 1, 199);
  }

  lemma TwoDebits(p: Payment)
    requires !p.credit
    ensures Debits([p, p]) == 2
  {
    assert [p, p][..1] == [p] && [p][..0] == [];
    assert Debits([p]) == 1;
  }

  /** An interest-free loan of 201.00 over 200 months, its installment rounded up
      to 2.00, with two paid and the second due after the transfer date: taking
      over a single 0.01 re-solves the second installment to 1.00 and adds 1.01
      to what the loan owes. */
  lemma PrepaidRecastAddsMore(d: Date) returns (l: Ledger, after: Ledger)
    requires !Before(d, Due(LONG_LOAN, 1)) && Before(d, Due(LONG_LOAN, 2))
    ensures LedgerOk(l) && TransferBalance(l, MoveTwoToOne(d), true) == Ok(after)
    ensures Quote(l, MoveTwoToOne(d)).amount == 1
    ensures View(l, 1).outstanding == 19700 && View(after, 1).outstanding == 19801
  {
    var ps := [Payment(200, d, false), Payment(200, d, false)];
    TwoDebits(ps[0]);
    l := TwoLoans(LONG_LOAN, ps, 1);
    SmallPayoff(LONG_LOAN, ps, 1, d);
    LongPlain([]);
    LongRecast(d);
    LastDueIsLater(d);
    after := MovesTheBalance(LONG_LOAN, ps, 1, d);
  }
}
