/** Restoring a backup bundle: every row is given a fresh identifier stage by
    stage, and every reference is resolved through the stages before it. */
module BackupRestore {
  import opened Options
  import opened BackupPayees

  /** A row on the target: one it had, or one this restore inserts. */
  datatype Ref = Old(id: string) | New(n: nat)

  type Ids = map<SrcId, Ref>

  // ----- the bundle

  // `sound` stands for the fields the restore itself checks, `fits` for those
  // only the column's own CHECK looks at; a row without any fits.
  datatype BAccount = BAccount(id: SrcId, typ: string, isDefault: bool)
  datatype BGroup = BGroup(id: SrcId, name: string)
  datatype BCategory = BCategory(id: SrcId, name: string, group: SrcId, global: bool)
  datatype BCycle = BCycle(id: SrcId, account: SrcId, start: string, sound: bool)
  datatype BTxn = BTxn(id: SrcId, account: SrcId, category: Option<SrcId>, payee: Option<SrcId>,
                       cycle: Option<SrcId>, sound: bool)
  datatype BSeries = BSeries(id: SrcId, category: Option<SrcId>, payee: Option<SrcId>, sound: bool, fits: bool)
  datatype BRule = BRule(category: SrcId, payee: Option<SrcId>, account: Option<SrcId>,
                         filterCategory: Option<SrcId>, filterPayee: Option<SrcId>, sound: bool)

  /** A row that only ties others together: a link ties two transactions, an
      attachment or disbursement a loan account and a transaction, a transfer
      two loan accounts, a term a series and an account, a recurring attachment
      a series and a transaction; a loan schedule has its account alone. `tag` is
      a link's type or a term's start. */
  datatype Join<R> = Join(from: R, to: Option<R>, tag: string, sound: bool, fits: bool)

  datatype Bundle = Bundle(
    accounts: seq<BAccount>, groups: seq<BGroup>, categories: seq<BCategory>, payees: seq<Payee>,
    cycles: seq<BCycle>, txns: seq<BTxn>, links: seq<Join<SrcId>>,
    attachments: seq<Join<SrcId>>, schedules: seq<Join<SrcId>>, transfers: seq<Join<SrcId>>,
    disbursements: seq<Join<SrcId>>, series: seq<BSeries>, terms: seq<Join<SrcId>>,
    recurring: seq<Join<SrcId>>, rules: seq<BRule>)

  // ----- the target

  datatype CategoryKey = CategoryKey(global: bool, name: string, group: Ref)

  /** What the lookups find: the user's groups by name, every group id usable
      there, the categories by owner, name and group, the names of the user's
      payees, the server's account types, and how many accounts. */
  datatype Target = Target(
    ownGroups: map<string, string>, groups: set<string>, categories: map<CategoryKey, string>,
    payeeNames: set<string>, types: set<string>, accounts: nat)

  predicate TargetOk(t: Target) {
    forall name :: name in t.ownGroups ==> t.ownGroups[name] in t.groups
  }

  // ----- the rows

  datatype AccountRow = AccountRow(id: Ref, typ: string, isDefault: bool)
  datatype GroupRow = GroupRow(id: Ref, name: string)
  datatype CategoryRow = CategoryRow(id: Ref, name: string, group: Ref)
  datatype PayeeRow = PayeeRow(id: Ref, name: string, account: Option<Ref>)
  datatype CycleRow = CycleRow(id: Ref, account: Ref, start: string)
  datatype TxnRow = TxnRow(id: Ref, account: Ref, category: Option<Ref>, payee: Option<Ref>, cycle: Option<Ref>)
  datatype JoinRow = JoinRow(id: Ref, join: Join<Ref>)
  datatype SeriesRow = SeriesRow(id: Ref, category: Option<Ref>, payee: Option<Ref>, fits: bool)
  datatype RuleRow = RuleRow(id: Ref, category: Ref, payee: Option<Ref>, account: Option<Ref>,
                             filterCategory: Option<Ref>, filterPayee: Option<Ref>)

  /** Rows emitted so far, the renaming, and the next fresh number. */
  datatype Stage<T> = Stage(rows: seq<T>, ids: Ids, next: nat)

  function Begin<T>(next: nat): Stage<T> {
    Stage([], map[], next)
  }

  function Emit<T>(s: Stage<T>, src: SrcId, row: T): Stage<T> {
    Stage(s.rows + [row], s.ids[src := New(s.next)], s.next + 1)
  }

  function MapRef(ids: Ids, id: Option<SrcId>): Option<Ref> {
    if id.Some? && id.value in ids then Some(ids[id.value]) else None
  }

  // ----- accounts

  function Accounts(xs: seq<BAccount>, next: nat): Stage<AccountRow> {
    if xs == [] then Begin(next)
    else
      var init, x := xs[..|xs| - 1], xs[|xs| - 1];
      var s := Accounts(init, next);
      Emit(s, x.id, AccountRow(New(s.next), x.typ, x.isDefault && forall k :: 0 <= k < |init| ==> !init[k].isDefault))
  }

  // ----- groups

  function Groups(xs: seq<BGroup>, t: Target, next: nat): Stage<GroupRow> {
    if xs == [] then Begin(next)
    else
      var x := xs[|xs| - 1];
      var s := Groups(xs[..|xs| - 1], t, next);
      if x.name in t.ownGroups then s.(ids := s.ids[x.id := Old(t.ownGroups[x.name])])
      else Emit(s, x.id, GroupRow(New(s.next), x.name))
  }

  // ----- categories

  const FALLBACK := "Imported"

  // What `strings.TrimSpace` strips: the white space of Unicode.
  predicate IsSpace(c: char) {
    || '\t' <= c <= '\r' || c == ' ' || c == '\U{85}' || c == '\U{A0}' || c == '\U{1680}'
    || '\U{2000}' <= c <= '\U{200A}' || c == '\U{2028}' || c == '\U{2029}' || c == '\U{202F}'
    || c == '\U{205F}' || c == '\U{3000}'
  }

  predicate Blank(s: string) {
    forall c :: c in s ==> IsSpace(c)
  }

  /** The group a bundle category belongs to, when it is known on either side. */
  function GroupOf(raw: SrcId, groupIds: Ids, t: Target): Option<Ref> {
    if raw in groupIds then Some(groupIds[raw])
    else if Blank(raw) || raw !in t.groups then None
    else Some(Old(raw))
  }

  /** Categories, together with the group rows the fallback may add to. */
  datatype Filing = Filing(stage: Stage<CategoryRow>, groups: seq<GroupRow>, fallback: Option<Ref>)

  function Fallback(f: Filing, t: Target): Filing {
    if f.fallback.Some? then f
    else if FALLBACK in t.ownGroups then f.(fallback := Some(Old(t.ownGroups[FALLBACK])))
    else
      var id := New(f.stage.next);
      f.(fallback := Some(id), groups := f.groups + [GroupRow(id, FALLBACK)],
          stage := f.stage.(next := f.stage.next + 1))
  }

  function File(f: Filing, x: BCategory, group: Ref, t: Target): Filing {
    var key := CategoryKey(x.global, x.name, group);
    if key in t.categories then f.(stage := f.stage.(ids := f.stage.ids[x.id := Old(t.categories[key])]))
    else f.(stage := Emit(f.stage, x.id, CategoryRow(New(f.stage.next), x.name, group)))
  }

  function FileOne(f: Filing, x: BCategory, groupIds: Ids, t: Target): Filing {
    match GroupOf(x.group, groupIds, t)
    case Some(group) => File(f, x, group, t)
    case None => var g := Fallback(f, t); if g.fallback.Some? then File(g, x, g.fallback.value, t) else g
  }

  function Categories(xs: seq<BCategory>, groupIds: Ids, groups: seq<GroupRow>, t: Target, next: nat): Filing {
    if xs == [] then Filing(Begin(next), groups, None)
    else FileOne(Categories(xs[..|xs| - 1], groupIds, groups, t, next), xs[|xs| - 1], groupIds, t)
  }

  // ----- payees

  function PayeeRows(kept: seq<Payee>, accounts: Ids, next: nat): Stage<PayeeRow> {
    if kept == [] then Begin(next)
    else
      var p := kept[|kept| - 1];
      var s := PayeeRows(kept[..|kept| - 1], accounts, next);
      Emit(s, p.id, PayeeRow(New(s.next), p.name, MapRef(accounts, p.account)))
  }

  /** Folded payees answer to their survivors' rows. */
  function PayeeIds(inserted: Ids, folded: map<SrcId, SrcId>): Ids {
    (map id | id in folded && folded[id] in inserted :: inserted[folded[id]]) + inserted
  }

  function Payees(xs: seq<Payee>, accounts: Ids, next: nat): Stage<PayeeRow> {
    var s := PayeeRows(KeptOf(xs, |xs|), accounts, next);
    s.(ids := PayeeIds(s.ids, FoldedOf(xs, |xs|)))
  }

  // ----- cycles and transactions

  function Cycles(xs: seq<BCycle>, accounts: Ids, next: nat): Option<Stage<CycleRow>> {
    if xs == [] then Some(Begin(next))
    else
      var x := xs[|xs| - 1];
      match Cycles(xs[..|xs| - 1], accounts, next)
      case None => None
      case Some(s) =>
        if x.account !in accounts then Some(s)
        else if !x.sound then None
        else Some(Emit(s, x.id, CycleRow(New(s.next), accounts[x.account], x.start)))
  }

  predicate OwnCycle(cycles: seq<CycleRow>, id: Ref, account: Ref) {
    exists k :: 0 <= k < |cycles| && cycles[k].id == id && cycles[k].account == account
  }

  datatype Resolved = Resolved(accounts: Ids, categories: Ids, payees: Ids, cycles: Ids, cycleRows: seq<CycleRow>)

  function TxnRowOf(x: BTxn, r: Resolved, id: Ref): TxnRow
    requires x.account in r.accounts
  {
    var account, cycle := r.accounts[x.account], MapRef(r.cycles, x.cycle);
    TxnRow(id, account, MapRef(r.categories, x.category), MapRef(r.payees, x.payee),
           if cycle.Some? && !OwnCycle(r.cycleRows, cycle.value, account) then None else cycle)
  }

  function Txns(xs: seq<BTxn>, r: Resolved, next: nat): Option<Stage<TxnRow>> {
    if xs == [] then Some(Begin(next))
    else
      var x := xs[|xs| - 1];
      match Txns(xs[..|xs| - 1], r, next)
      case None => None
      case Some(s) =>
        if x.account !in r.accounts then Some(s)
        else if !x.sound then None
        else Some(Emit(s, x.id, TxnRowOf(x, r, New(s.next))))
  }

  // ----- the rows that tie others together

  predicate Joinable(x: Join<SrcId>, from: Ids, to: Ids) {
    x.from in from && (x.to.Some? ==> x.to.value in to)
  }

  function JoinImage(x: Join<SrcId>, from: Ids, to: Ids): Join<Ref>
    requires Joinable(x, from, to)
  {
    Join(from[x.from], MapRef(to, x.to), x.tag, x.sound, x.fits)
  }

  /** Rows with an end missing from the bundle are skipped; of the others, one
      that fails a check gives the whole restore up. */
  function Joins(xs: seq<Join<SrcId>>, checked: bool, from: Ids, to: Ids, next: nat): Option<Stage<JoinRow>> {
    if xs == [] then Some(Begin(next))
    else
      var x := xs[|xs| - 1];
      var s :- Joins(xs[..|xs| - 1], checked, from, to, next);
      if !Joinable(x, from, to) then Some(s)
      else if checked && !x.sound then None
      else Some(s.(rows := s.rows + [JoinRow(New(s.next), JoinImage(x, from, to))], next := s.next + 1))
  }

  datatype Loans = Loans(attachments: Stage<JoinRow>, schedules: Stage<JoinRow>, transfers: Stage<JoinRow>,
                         disbursements: Stage<JoinRow>)

  function LoansOf(b: Bundle, accounts: Ids, txns: Ids, next: nat): Option<Loans> {
    var attachments :- Joins(b.attachments, false, accounts, txns, next);
    var schedules :- Joins(b.schedules, true, accounts, accounts, attachments.next);
    var transfers :- Joins(b.transfers, true, accounts, accounts, schedules.next);
    var disbursements :- Joins(b.disbursements, false, accounts, txns, transfers.next);
    Some(Loans(attachments, schedules, transfers, disbursements))
  }

  // ----- recurring series and rules

  function Series(xs: seq<BSeries>, r: Resolved, next: nat): Option<Stage<SeriesRow>> {
    if xs == [] then Some(Begin(next))
    else
      var x := xs[|xs| - 1];
      var s :- Series(xs[..|xs| - 1], r, next);
      if !x.sound then None
      else Some(Emit(s, x.id, SeriesRow(New(s.next), MapRef(r.categories, x.category), MapRef(r.payees, x.payee),
          x.fits)))
  }

  datatype Recurring = Recurring(series: Stage<SeriesRow>, terms: Stage<JoinRow>, attachments: Stage<JoinRow>)

  function RecurringOf(b: Bundle, r: Resolved, txns: Ids, next: nat): Option<Recurring> {
    var series :- Series(b.series, r, next);
    var terms :- Joins(b.terms, true, series.ids, r.accounts, series.next);
    var attachments :- Joins(b.recurring, false, series.ids, txns, terms.next);
    Some(Recurring(series, terms, attachments))
  }

  function RuleRowOf(x: BRule, r: Resolved, id: Ref): RuleRow
    requires x.category in r.categories
  {
    RuleRow(id, r.categories[x.category], MapRef(r.payees, x.payee), MapRef(r.accounts, x.account),
            MapRef(r.categories, x.filterCategory), MapRef(r.payees, x.filterPayee))
  }

  function Rules(xs: seq<BRule>, r: Resolved, next: nat): Option<Stage<RuleRow>> {
    if xs == [] then Some(Begin(next))
    else
      var x := xs[|xs| - 1];
      match Rules(xs[..|xs| - 1], r, next)
      case None => None
      case Some(s) =>
        if x.category !in r.categories then Some(s)
        else if !x.sound then None
        else Some(s.(rows := s.rows + [RuleRowOf(x, r, New(s.next))], next := s.next + 1))
  }

  // ----- the whole restore

  datatype Early = Early(accounts: Stage<AccountRow>, groups: Stage<GroupRow>, filing: Filing, payees: Stage<PayeeRow>)

  datatype Restored = Restored(
    early: Early, cycles: Stage<CycleRow>, txns: Stage<TxnRow>, links: Stage<JoinRow>,
    loans: Loans, recurring: Recurring, rules: Stage<RuleRow>)

  /** A ledger with accounts, a row the restore finds malformed, or a row the
      tables refuse: all give the whole restore up. */
  datatype Outcome = Done(rows: Restored) | Conflict | Malformed | Refused

  /** The stages nothing can go wrong in. */
  function EarlyOf(b: Bundle, t: Target): Early {
    var accounts := Accounts(b.accounts, 0);
    var groups := Groups(b.groups, t, accounts.next);
    var filing := Categories(b.categories, groups.ids, groups.rows, t, groups.next);
    Early(accounts, groups, filing, Payees(b.payees, accounts.ids, filing.stage.next))
  }

  /** The maps transactions and rules are resolved through. */
  function ResolvedBy(e: Early, cycles: Stage<CycleRow>): Resolved {
    Resolved(e.accounts.ids, e.filing.stage.ids, e.payees.ids, cycles.ids, cycles.rows)
  }

  function RowsFrom(b: Bundle, e: Early): Option<Restored> {
    var cycles :- Cycles(b.cycles, e.accounts.ids, e.payees.next);
    var r := ResolvedBy(e, cycles);
    var txns :- Txns(b.txns, r, cycles.next);
    var links :- Joins(b.links, true, txns.ids, txns.ids, txns.next);
    var loans :- LoansOf(b, r.accounts, txns.ids, links.next);
    var recurring :- RecurringOf(b, r, txns.ids, loans.disbursements.next);
    var rules :- Rules(b.rules, r, recurring.attachments.next);
    Some(Restored(e, cycles, txns, links, loans, recurring, rules))
  }

  predicate TypesKnown(b: Bundle, t: Target) {
    forall k :: 0 <= k < |b.accounts| ==> b.accounts[k].typ in t.types
  }

  // ----- what the tables refuse

  /** Which columns of a joining table have to be unique. */
  datatype Unique = OnFrom | OnTo | OnEach | OnTagAndFrom | OnAll

  predicate SameKey<R(==)>(u: Unique, a: Join<R>, b: Join<R>) {
    match u
    case OnFrom => a.from == b.from
    case OnTo => a.to == b.to
    case OnEach => a.from == b.from || a.to == b.to
    case OnTagAndFrom => a.tag == b.tag && a.from == b.from
    case OnAll => a.tag == b.tag && a.from == b.from && a.to == b.to
  }

  /** `apart` tables forbid a row from an end to itself. */
  predicate JoinsFit<R(==)>(u: Unique, apart: bool, js: seq<Join<R>>) {
    && (forall i, j :: 0 <= i < j < |js| ==> !SameKey(u, js[i], js[j]))
    && (forall i :: 0 <= i < |js| ==> js[i].fits && (apart ==> js[i].to != Some(js[i].from)))
  }

  function JoinsOf(rows: seq<JoinRow>): seq<Join<Ref>> {
    seq(|rows|, i requires 0 <= i < |rows| => rows[i].join)
  }

  predicate PayeesFit(rows: seq<PayeeRow>, t: Target) {
    && (forall i :: 0 <= i < |rows| ==> rows[i].name !in t.payeeNames)
    && (forall i, j :: 0 <= i < j < |rows| ==> rows[i].name != rows[j].name)
    && (forall i, j :: 0 <= i < j < |rows| && rows[i].account.Some? ==> rows[i].account != rows[j].account)
  }

  predicate CyclesFit(rows: seq<CycleRow>) {
    forall i, j :: 0 <= i < j < |rows| ==> (rows[i].account, rows[i].start) != (rows[j].account, rows[j].start)
  }

  predicate IsLoan(accounts: seq<AccountRow>, id: Ref) {
    exists k :: 0 <= k < |accounts| && accounts[k].id == id && accounts[k].typ == "loan"
  }

  /** A loan account holds no transactions of its own. */
  predicate TxnsFit(rows: seq<TxnRow>, accounts: seq<AccountRow>) {
    forall i :: 0 <= i < |rows| ==> !IsLoan(accounts, rows[i].account)
  }

  predicate LoansFit<R(==)>(attachments: seq<Join<R>>, schedules: seq<Join<R>>, transfers: seq<Join<R>>,
                            disbursements: seq<Join<R>>) {
    && JoinsFit(OnTo, false, attachments) && JoinsFit(OnFrom, false, schedules)
    && JoinsFit(OnFrom, true, transfers) && JoinsFit(OnEach, false, disbursements)
  }

  /** Every unique index, CHECK and trigger the INSERTs can run into; that no
      foreign key is among them is `BackupTheorems.EveryReferenceResolves`. */
  predicate Storable(o: Restored, t: Target) {
    && PayeesFit(o.early.payees.rows, t) && CyclesFit(o.cycles.rows) && TxnsFit(o.txns.rows, o.early.accounts.rows)
    && JoinsFit(OnAll, true, JoinsOf(o.links.rows))
    && LoansFit(JoinsOf(o.loans.attachments.rows), JoinsOf(o.loans.schedules.rows), JoinsOf(o.loans.transfers.rows),
                JoinsOf(o.loans.disbursements.rows))
    && (forall i :: 0 <= i < |o.recurring.series.rows| ==> o.recurring.series.rows[i].fits)
    && JoinsFit(OnTagAndFrom, false, JoinsOf(o.recurring.terms.rows))
    && JoinsFit(OnTo, false, JoinsOf(o.recurring.attachments.rows))
  }

  function Restore(b: Bundle, t: Target): Outcome {
    if t.accounts > 0 then Conflict
    else if !TypesKnown(b, t) then Malformed
    else
      match RowsFrom(b, EarlyOf(b, t))
      case None => Malformed
      case Some(rows) => if Storable(rows, t) then Done(rows) else Refused
  }
}
