/** A well-formed bundle is restored one for one: the renaming is one to one and
    commutes with every reference. */
module BackupRenaming {
  import opened Options
  import opened BackupPayees
  import opened BackupRestore
  import opened BackupTheorems

  // ----- a well-formed bundle

  const AccountSrc := (x: BAccount) => x.id
  const CategorySrc := (x: BCategory) => x.id
  const PayeeSrc := (x: Payee) => x.id
  const CycleSrc := (x: BCycle) => x.id
  const TxnSrc := (x: BTxn) => x.id
  const SeriesSrc := (x: BSeries) => x.id

  function Sources<T>(xs: seq<T>, src: T -> SrcId): set<SrcId> {
    set k | 0 <= k < |xs| :: src(xs[k])
  }

  predicate DistinctBy<T>(xs: seq<T>, src: T -> SrcId) {
    forall i, j :: 0 <= i < j < |xs| ==> src(xs[i]) != src(xs[j])
  }

  predicate Within(id: Option<SrcId>, sources: set<SrcId>) {
    id.Some? ==> id.value in sources
  }

  predicate TxnClosed(x: BTxn, b: Bundle) {
    && x.account in Sources(b.accounts, AccountSrc) && x.sound
    && Within(x.category, Sources(b.categories, CategorySrc)) && Within(x.payee, Sources(b.payees, PayeeSrc))
    && (x.cycle.Some? ==>
          exists k :: 0 <= k < |b.cycles| && b.cycles[k].id == x.cycle.value && b.cycles[k].account == x.account)
  }

  predicate RuleClosed(x: BRule, b: Bundle) {
    && x.category in Sources(b.categories, CategorySrc) && x.sound
    && Within(x.payee, Sources(b.payees, PayeeSrc)) && Within(x.account, Sources(b.accounts, AccountSrc))
    && Within(x.filterCategory, Sources(b.categories, CategorySrc))
    && Within(x.filterPayee, Sources(b.payees, PayeeSrc))
  }

  predicate JoinsClosed(xs: seq<Join<SrcId>>, from: set<SrcId>, to: set<SrcId>) {
    forall k :: 0 <= k < |xs| ==> xs[k].from in from && Within(xs[k].to, to) && xs[k].sound
  }

  predicate LoansClosed(b: Bundle) {
    var accounts, txns := Sources(b.accounts, AccountSrc), Sources(b.txns, TxnSrc);
    && JoinsClosed(b.attachments, accounts, txns) && JoinsClosed(b.schedules, accounts, accounts)
    && JoinsClosed(b.transfers, accounts, accounts) && JoinsClosed(b.disbursements, accounts, txns)
  }

  predicate RecurringClosed(b: Bundle) {
    var series := Sources(b.series, SeriesSrc);
    && (forall k :: 0 <= k < |b.series| ==>
          && b.series[k].sound && Within(b.series[k].category, Sources(b.categories, CategorySrc))
          && Within(b.series[k].payee, Sources(b.payees, PayeeSrc)))
    && JoinsClosed(b.terms, series, Sources(b.accounts, AccountSrc))
    && JoinsClosed(b.recurring, series, Sources(b.txns, TxnSrc))
  }

  predicate DistinctIds(b: Bundle) {
    && DistinctBy(b.accounts, AccountSrc) && DistinctBy(b.cycles, CycleSrc) && DistinctBy(b.txns, TxnSrc)
    && DistinctBy(b.series, SeriesSrc) && UniqueIds(b.payees)
  }

  /** Distinct identifiers, every reference inside the bundle, every row sound:
      what an export writes. */
  predicate WellFormed(b: Bundle) {
    && DistinctIds(b)
    && (forall k :: 0 <= k < |b.payees| ==> Within(b.payees[k].account, Sources(b.accounts, AccountSrc)))
    && (forall k :: 0 <= k < |b.cycles| ==> b.cycles[k].account in Sources(b.accounts, AccountSrc) && b.cycles[k].sound)
    && (forall k :: 0 <= k < |b.txns| ==> TxnClosed(b.txns[k], b))
    && JoinsClosed(b.links, Sources(b.txns, TxnSrc), Sources(b.txns, TxnSrc))
    && LoansClosed(b) && RecurringClosed(b)
    && (forall k :: 0 <= k < |b.rules| ==> RuleClosed(b.rules[k], b))
  }

  // ----- rows kept one for one

  /** Every source row has the row of its place, under its own number. */
  ghost predicate Kept<S(!new), T(!new)>(xs: seq<S>, src: S -> SrcId, s: Stage<T>, id: T -> Ref) {
    && |s.rows| == |xs| && s.ids.Keys == Sources(xs, src)
    && forall i :: 0 <= i < |xs| ==> src(xs[i]) in s.ids && s.ids[src(xs[i])] == id(s.rows[i])
  }

  lemma EmitKept<S(!new), T(!new)>(init: seq<S>, x: S, src: S -> SrcId, s: Stage<T>, id: T -> Ref, row: T)
    requires Kept(init, src, s, id) && DistinctBy(init + [x], src) && id(row) == New(s.next)
    ensures Kept(init + [x], src, Emit(s, src(x), row), id)
  {
    var xs, t := init + [x], Emit(s, src(x), row);
    assert xs[|init|] == x;
    assert forall i :: 0 <= i < |init| ==> xs[i] == init[i] && src(xs[i]) != src(xs[|init|]);
    assert Sources(xs, src) == Sources(init, src) + {src(x)} by {
      assert forall k :: 0 <= k < |init| ==> src(init[k]) == src(xs[k]);
      assert src(xs[|init|]) in Sources(xs, src);
    }
  }

  /** Different sources have different numbers. */
  ghost predicate Injective(ids: Ids) {
    forall a, b :: a in ids && b in ids && ids[a] == ids[b] ==> a == b
  }

  lemma KeptIsInjective<S(!new), T(!new)>(xs: seq<S>, src: S -> SrcId, s: Stage<T>, id: T -> Ref, from: nat)
    requires Kept(xs, src, s, id) && Numbered(s, id, from)
    ensures Injective(s.ids)
  {
    forall a, b | a in s.ids && b in s.ids && s.ids[a] == s.ids[b]
      ensures a == b
    {
      assert a in Sources(xs, src) && b in Sources(xs, src);
      var i :| 0 <= i < |xs| && src(xs[i]) == a;
      var j :| 0 <= j < |xs| && src(xs[j]) == b;
      assert id(s.rows[i]) == id(s.rows[j]);
    }
  }

  lemma DistinctInit<S>(xs: seq<S>, src: S -> SrcId)
    requires DistinctBy(xs, src) && xs != []
    ensures DistinctBy(xs[..|xs| - 1], src) && xs == xs[..|xs| - 1] + [xs[|xs| - 1]]
  {
  }

  // ----- accounts, cycles and transactions

  lemma {:induction false} AccountsRename(xs: seq<BAccount>, next: nat)
    requires DistinctBy(xs, AccountSrc)
    ensures Kept(xs, AccountSrc, Accounts(xs, next), AccountId)
    ensures forall i :: 0 <= i < |xs| && i < |Accounts(xs, next).rows| ==> Accounts(xs, next).rows[i].typ == xs[i].typ
  {
    if xs != [] {
      var init, x := xs[..|xs| - 1], xs[|xs| - 1];
      DistinctInit(xs, AccountSrc);
      AccountsRename(init, next);
      var s := Accounts(init, next);
      EmitKept(init, x, AccountSrc, s, AccountId, Accounts(xs, next).rows[|s.rows|]);
    }
  }

  /** A cycle's row belongs to the renamed account and starts the same day. */
  ghost predicate CyclesKept(xs: seq<BCycle>, s: Stage<CycleRow>, accounts: Ids) {
    && Kept(xs, CycleSrc, s, CycleId)
    && forall i :: 0 <= i < |xs| ==>
         xs[i].account in accounts && s.rows[i].account == accounts[xs[i].account] && s.rows[i].start == xs[i].start
  }

  lemma {:induction false} CyclesRename(xs: seq<BCycle>, accounts: Ids, next: nat)
    requires DistinctBy(xs, CycleSrc) && forall k :: 0 <= k < |xs| ==> xs[k].account in accounts && xs[k].sound
    ensures Cycles(xs, accounts, next).Some? && CyclesKept(xs, Cycles(xs, accounts, next).value, accounts)
  {
    if xs != [] {
      var init, x := xs[..|xs| - 1], xs[|xs| - 1];
      DistinctInit(xs, CycleSrc);
      CyclesRename(init, accounts, next);
      var s := Cycles(init, accounts, next).value;
      EmitKept(init, x, CycleSrc, s, CycleId, CycleRow(New(s.next), accounts[x.account], x.start));
    }
  }

  /** The image of an optional reference under a renaming that has it. */
  ghost predicate IsImage(ids: Ids, from: Option<SrcId>, to: Option<Ref>) {
    if from == None then to == None else from.value in ids && to == Some(ids[from.value])
  }

  ghost predicate TxnImage(x: BTxn, row: TxnRow, r: Resolved) {
    && x.account in r.accounts && row.account == r.accounts[x.account]
    && IsImage(r.categories, x.category, row.category) && IsImage(r.payees, x.payee, row.payee)
    && IsImage(r.cycles, x.cycle, row.cycle)
  }

  ghost predicate TxnsKept(xs: seq<BTxn>, s: Stage<TxnRow>, r: Resolved) {
    Kept(xs, TxnSrc, s, TxnId) && forall i :: 0 <= i < |xs| ==> TxnImage(xs[i], s.rows[i], r)
  }

  /** The transaction's references can all be renamed. */
  ghost predicate Renameable(x: BTxn, r: Resolved) {
    && x.account in r.accounts && x.sound
    && Within(x.category, r.categories.Keys) && Within(x.payee, r.payees.Keys)
    && (x.cycle.Some? ==>
          x.cycle.value in r.cycles && OwnCycle(r.cycleRows, r.cycles[x.cycle.value], r.accounts[x.account]))
  }

  lemma OneMoreTxn(init: seq<BTxn>, x: BTxn, r: Resolved, s: Stage<TxnRow>)
    requires TxnsKept(init, s, r) && Renameable(x, r) && DistinctBy(init + [x], TxnSrc)
    ensures TxnsKept(init + [x], Emit(s, x.id, TxnRowOf(x, r, New(s.next))), r)
  {
    var xs, t := init + [x], Emit(s, x.id, TxnRowOf(x, r, New(s.next)));
    EmitKept(init, x, TxnSrc, s, TxnId, TxnRowOf(x, r, New(s.next)));
    assert TxnImage(x, TxnRowOf(x, r, New(s.next)), r);
    forall i | 0 <= i < |xs|
      ensures TxnImage(xs[i], t.rows[i], r)
    {
      if i < |init| {
        assert TxnImage(init[i], s.rows[i], r);
      }
    }
  }

  lemma {:induction false} TxnsRename(xs: seq<BTxn>, r: Resolved, next: nat)
    requires DistinctBy(xs, TxnSrc) && forall k :: 0 <= k < |xs| ==> Renameable(xs[k], r)
    ensures Txns(xs, r, next).Some? && TxnsKept(xs, Txns(xs, r, next).value, r)
  {
    if xs != [] {
      var init, x := xs[..|xs| - 1], xs[|xs| - 1];
      DistinctInit(xs, TxnSrc);
      assert forall k :: 0 <= k < |init| ==> init[k] == xs[k];
      TxnsRename(init, r, next);
      assert Renameable(x, r);
      OneMoreTxn(init, x, r, Txns(init, r, next).value);
      assert Txns(xs, r, next)
               == Some(Emit(Txns(init, r, next).value, x.id, TxnRowOf(x, r, New(Txns(init, r, next).value.next))));
    }
  }

  // ----- the rows that tie others together

  ghost predicate IsJoinImage(x: Join<SrcId>, row: Join<Ref>, from: Ids, to: Ids) {
    && x.from in from && row.from == from[x.from] && IsImage(to, x.to, row.to)
    && row.tag == x.tag && row.fits == x.fits
  }

  /** One row a source row, in order, each tying what the source row ties. */
  ghost predicate JoinsKept(xs: seq<Join<SrcId>>, s: Stage<JoinRow>, from: Ids, to: Ids) {
    |s.rows| == |xs| && forall i :: 0 <= i < |xs| ==> IsJoinImage(xs[i], s.rows[i].join, from, to)
  }

  lemma {:induction false} JoinsRename(xs: seq<Join<SrcId>>, checked: bool, from: Ids, to: Ids, next: nat)
    requires JoinsClosed(xs, from.Keys, to.Keys)
    ensures Joins(xs, checked, from, to, next).Some?
    ensures JoinsKept(xs, Joins(xs, checked, from, to, next).value, from, to)
  {
    if xs != [] {
      var init := xs[..|xs| - 1];
      assert forall k :: 0 <= k < |init| ==> init[k] == xs[k];
      JoinsRename(init, checked, from, to, next);
    }
  }

  ghost predicate LoansKept(b: Bundle, loans: Loans, accounts: Ids, txns: Ids) {
    && JoinsKept(b.attachments, loans.attachments, accounts, txns)
    && JoinsKept(b.schedules, loans.schedules, accounts, accounts)
    && JoinsKept(b.transfers, loans.transfers, accounts, accounts)
    && JoinsKept(b.disbursements, loans.disbursements, accounts, txns)
  }

  lemma LoansRename(b: Bundle, accounts: Ids, txns: Ids, next: nat)
    requires LoansClosed(b) && accounts.Keys == Sources(b.accounts, AccountSrc) && txns.Keys == Sources(b.txns, TxnSrc)
    ensures LoansOf(b, accounts, txns, next).Some?
    ensures LoansKept(b, LoansOf(b, accounts, txns, next).value, accounts, txns)
  {
    JoinsRename(b.attachments, false, accounts, txns, next);
    var attachments := Joins(b.attachments, false, accounts, txns, next).value;
    JoinsRename(b.schedules, true, accounts, accounts, attachments.next);
    var schedules := Joins(b.schedules, true, accounts, accounts, attachments.next).value;
    JoinsRename(b.transfers, true, accounts, accounts, schedules.next);
    var transfers := Joins(b.transfers, true, accounts, accounts, schedules.next).value;
    JoinsRename(b.disbursements, false, accounts, txns, transfers.next);
  }

  // ----- recurring series and rules

  ghost predicate SeriesKept(xs: seq<BSeries>, s: Stage<SeriesRow>, r: Resolved) {
    && Kept(xs, SeriesSrc, s, SeriesId)
    && forall i :: 0 <= i < |xs| ==>
         && IsImage(r.categories, xs[i].category, s.rows[i].category) && IsImage(r.payees, xs[i].payee, s.rows[i].payee)
         && s.rows[i].fits == xs[i].fits
  }

  predicate SeriesRenameable(x: BSeries, r: Resolved) {
    x.sound && Within(x.category, r.categories.Keys) && Within(x.payee, r.payees.Keys)
  }

  function SeriesRowOf(x: BSeries, r: Resolved, id: Ref): SeriesRow {
    SeriesRow(id, MapRef(r.categories, x.category), MapRef(r.payees, x.payee), x.fits)
  }

  lemma OneMoreSeries(init: seq<BSeries>, x: BSeries, r: Resolved, s: Stage<SeriesRow>)
    requires SeriesKept(init, s, r) && SeriesRenameable(x, r) && DistinctBy(init + [x], SeriesSrc)
    ensures SeriesKept(init + [x], Emit(s, x.id, SeriesRowOf(x, r, New(s.next))), r)
  {
    EmitKept(init, x, SeriesSrc, s, SeriesId, SeriesRowOf(x, r, New(s.next)));
  }

  lemma {:induction false} SeriesRename(xs: seq<BSeries>, r: Resolved, next: nat)
    requires DistinctBy(xs, SeriesSrc) && forall k :: 0 <= k < |xs| ==> SeriesRenameable(xs[k], r)
    ensures Series(xs, r, next).Some? && SeriesKept(xs, Series(xs, r, next).value, r)
  {
    if xs != [] {
      var init, x := xs[..|xs| - 1], xs[|xs| - 1];
      DistinctInit(xs, SeriesSrc);
      assert forall k :: 0 <= k < |init| ==> init[k] == xs[k];
      SeriesRename(init, r, next);
      var s := Series(init, r, next).value;
      assert Series(xs, r, next) == Some(Emit(s, x.id, SeriesRowOf(x, r, New(s.next))));
      OneMoreSeries(init, x, r, s);
    }
  }

  ghost predicate RecurringKept(b: Bundle, o: Recurring, r: Resolved, txns: Ids) {
    && SeriesKept(b.series, o.series, r) && JoinsKept(b.terms, o.terms, o.series.ids, r.accounts)
    && JoinsKept(b.recurring, o.attachments, o.series.ids, txns)
  }

  lemma RecurringRename(b: Bundle, r: Resolved, txns: Ids, next: nat)
    requires RecurringClosed(b) && DistinctBy(b.series, SeriesSrc)
    requires r.accounts.Keys == Sources(b.accounts, AccountSrc) && txns.Keys == Sources(b.txns, TxnSrc)
    requires Sources(b.categories, CategorySrc) <= r.categories.Keys && Sources(b.payees, PayeeSrc) <= r.payees.Keys
    ensures RecurringOf(b, r, txns, next).Some? && RecurringKept(b, RecurringOf(b, r, txns, next).value, r, txns)
  {
    SeriesRename(b.series, r, next);
    var series := Series(b.series, r, next).value;
    JoinsRename(b.terms, true, series.ids, r.accounts, series.next);
    var terms := Joins(b.terms, true, series.ids, r.accounts, series.next).value;
    JoinsRename(b.recurring, false, series.ids, txns, terms.next);
  }

  /** A rule keeps its category, its actions and all of its conditions. */
  ghost predicate RuleImage(x: BRule, row: RuleRow, r: Resolved) {
    && x.category in r.categories && row.category == r.categories[x.category]
    && IsImage(r.payees, x.payee, row.payee) && IsImage(r.accounts, x.account, row.account)
    && IsImage(r.categories, x.filterCategory, row.filterCategory) && IsImage(r.payees, x.filterPayee, row.filterPayee)
  }

  ghost predicate RulesKept(xs: seq<BRule>, rows: seq<RuleRow>, r: Resolved) {
    |rows| == |xs| && forall i :: 0 <= i < |xs| ==> RuleImage(xs[i], rows[i], r)
  }

  predicate RuleRenameable(x: BRule, r: Resolved) {
    && x.category in r.categories && x.sound && Within(x.payee, r.payees.Keys) && Within(x.account, r.accounts.Keys)
    && Within(x.filterCategory, r.categories.Keys) && Within(x.filterPayee, r.payees.Keys)
  }

  lemma {:induction false} RulesRename(xs: seq<BRule>, r: Resolved, next: nat)
    requires forall k :: 0 <= k < |xs| ==> RuleRenameable(xs[k], r)
    ensures Rules(xs, r, next).Some? && RulesKept(xs, Rules(xs, r, next).value.rows, r)
  {
    if xs != [] {
      var init := xs[..|xs| - 1];
      assert forall k :: 0 <= k < |init| ==> init[k] == xs[k];
      RulesRename(init, r, next);
    }
  }

  // ----- the early stages

  lemma {:induction false} EveryCategoryIsMapped(
    xs: seq<BCategory>, groupIds: Ids, groups: seq<GroupRow>, t: Target, next: nat)
    ensures Sources(xs, CategorySrc) <= Categories(xs, groupIds, groups, t, next).stage.ids.Keys
  {
    if xs != [] {
      var init, x := xs[..|xs| - 1], xs[|xs| - 1];
      EveryCategoryIsMapped(init, groupIds, groups, t, next);
      forall k | 0 <= k < |xs|
        ensures CategorySrc(xs[k]) in Categories(xs, groupIds, groups, t, next).stage.ids
      {
        assert k < |init| ==> init[k] == xs[k] && CategorySrc(init[k]) in Sources(init, CategorySrc);
      }
    }
  }

  lemma PayeesAllMapped(xs: seq<Payee>, accounts: Ids, next: nat)
    requires UniqueIds(xs)
    ensures Sources(xs, PayeeSrc) <= Payees(xs, accounts, next).ids.Keys
  {
    forall k | 0 <= k < |xs|
      ensures PayeeSrc(xs[k]) in Payees(xs, accounts, next).ids
    {
      EveryPayeeIsMapped(xs, accounts, next, xs[k]);
    }
  }

  /** A payee's row is linked to its renamed account. */
  ghost predicate PayeesKept(kept: seq<Payee>, rows: seq<PayeeRow>, accounts: Ids) {
    && |rows| == |kept|
    && forall i :: 0 <= i < |kept| ==>
         rows[i].name == kept[i].name && IsImage(accounts, kept[i].account, rows[i].account)
  }

  lemma {:induction false} PayeesRename(kept: seq<Payee>, accounts: Ids, next: nat)
    requires forall i :: 0 <= i < |kept| ==> Within(kept[i].account, accounts.Keys)
    ensures PayeesKept(kept, PayeeRows(kept, accounts, next).rows, accounts)
  {
    if kept != [] {
      var init := kept[..|kept| - 1];
      assert forall k :: 0 <= k < |init| ==> init[k] == kept[k];
      PayeesRename(init, accounts, next);
    }
  }

  lemma KeptAccountsWithin(xs: seq<Payee>, accounts: set<SrcId>)
    requires forall k :: 0 <= k < |xs| ==> Within(xs[k].account, accounts)
    ensures forall i :: 0 <= i < |KeptOf(xs, |xs|)| ==> Within(KeptOf(xs, |xs|)[i].account, accounts)
  {
    var kept := KeptOf(xs, |xs|);
    forall i | 0 <= i < |kept|
      ensures Within(kept[i].account, accounts)
    {
      KeptMembers(xs, |xs|, kept[i]);
      assert kept[i] in kept;
      var j :| 0 <= j < |xs| && FateOf(xs, xs[j]) == Keep(kept[i]);
      assert kept[i].account == xs[j].account;
    }
  }

  ghost predicate EarlyKept(b: Bundle, e: Early) {
    && Kept(b.accounts, AccountSrc, e.accounts, AccountId)
    && (forall i :: 0 <= i < |b.accounts| ==> e.accounts.rows[i].typ == b.accounts[i].typ)
    && PayeesKept(KeptOf(b.payees, |b.payees|), e.payees.rows, e.accounts.ids)
    && Sources(b.categories, CategorySrc) <= e.filing.stage.ids.Keys && Sources(b.payees, PayeeSrc) <= e.payees.ids.Keys
  }

  lemma EarlyRename(b: Bundle, t: Target)
    requires WellFormed(b)
    ensures EarlyKept(b, EarlyOf(b, t))
  {
    var e := EarlyOf(b, t);
    AccountsRename(b.accounts, 0);
    EveryCategoryIsMapped(b.categories, e.groups.ids, e.groups.rows, t, e.groups.next);
    PayeesAllMapped(b.payees, e.accounts.ids, e.filing.stage.next);
    KeptAccountsWithin(b.payees, e.accounts.ids.Keys);
    PayeesRename(KeptOf(b.payees, |b.payees|), e.accounts.ids, e.filing.stage.next);
  }

  // ----- the whole restore

  /** Nothing is lost, nothing added, and every reference points where it
      pointed. */
  ghost predicate BundleKept(b: Bundle, o: Restored) {
    var r := ResolvedBy(o.early, o.cycles);
    && EarlyKept(b, o.early) && CyclesKept(b.cycles, o.cycles, o.early.accounts.ids) && TxnsKept(b.txns, o.txns, r)
    && JoinsKept(b.links, o.links, o.txns.ids, o.txns.ids) && LoansKept(b, o.loans, o.early.accounts.ids, o.txns.ids)
    && RecurringKept(b, o.recurring, r, o.txns.ids) && RulesKept(b.rules, o.rules.rows, r)
  }

  lemma AllRenameable(b: Bundle, e: Early, cycles: Stage<CycleRow>)
    requires WellFormed(b) && EarlyKept(b, e) && CyclesKept(b.cycles, cycles, e.accounts.ids)
    ensures forall k :: 0 <= k < |b.txns| ==> Renameable(b.txns[k], ResolvedBy(e, cycles))
  {
    var r := ResolvedBy(e, cycles);
    forall i | 0 <= i < |b.txns|
      ensures Renameable(b.txns[i], r)
    {
      var x := b.txns[i];
      assert TxnClosed(x, b);
      if x.cycle.Some? {
        var k :| 0 <= k < |b.cycles| && b.cycles[k].id == x.cycle.value && b.cycles[k].account == x.account;
        assert CycleSrc(b.cycles[k]) in cycles.ids && cycles.ids[CycleSrc(b.cycles[k])] == CycleId(cycles.rows[k]);
        assert cycles.rows[k].account == e.accounts.ids[x.account];
      }
    }
  }

  lemma AllRulesRenameable(b: Bundle, r: Resolved)
    requires WellFormed(b) && r.accounts.Keys == Sources(b.accounts, AccountSrc)
    requires Sources(b.categories, CategorySrc) <= r.categories.Keys && Sources(b.payees, PayeeSrc) <= r.payees.Keys
    ensures forall k :: 0 <= k < |b.rules| ==> RuleRenameable(b.rules[k], r)
  {
    forall k | 0 <= k < |b.rules|
      ensures RuleRenameable(b.rules[k], r)
    {
      assert RuleClosed(b.rules[k], b);
    }
  }

  // The later stages over early ones that kept everything.
  lemma RowsRename(b: Bundle, e: Early) returns (o: Restored)
    requires WellFormed(b) && EarlyKept(b, e)
    ensures RowsAre(b, e, o) && BundleKept(b, o)
  {
    CyclesRename(b.cycles, e.accounts.ids, e.payees.next);
    var cycles := Cycles(b.cycles, e.accounts.ids, e.payees.next).value;
    var r := ResolvedBy(e, cycles);
    AllRenameable(b, e, cycles);
    TxnsRename(b.txns, r, cycles.next);
    var txns := Txns(b.txns, r, cycles.next).value;
    JoinsRename(b.links, true, txns.ids, txns.ids, txns.next);
    var links := Joins(b.links, true, txns.ids, txns.ids, txns.next).value;
    LoansRename(b, r.accounts, txns.ids, links.next);
    var loans := LoansOf(b, r.accounts, txns.ids, links.next).value;
    RecurringRename(b, r, txns.ids, loans.disbursements.next);
    var recurring := RecurringOf(b, r, txns.ids, loans.disbursements.next).value;
    AllRulesRenameable(b, r);
    RulesRename(b.rules, r, recurring.attachments.next);
    o := Restored(e, cycles, txns, links, loans, recurring, Rules(b.rules, r, recurring.attachments.next).value);
  }

  lemma RowsAreBuilt(b: Bundle, t: Target) returns (o: Restored)
    requires WellFormed(b)
    ensures RowsFrom(b, EarlyOf(b, t)) == Some(o) && RowsAre(b, EarlyOf(b, t), o) && BundleKept(b, o)
  {
    var e := EarlyOf(b, t);
    EarlyRename(b, t);
    o := RowsRename(b, e);
    RowsFromStages(b, e, o);
  }

  lemma DoneRows(b: Bundle, t: Target)
    ensures Restore(b, t).Done? ==> RowsFrom(b, EarlyOf(b, t)) == Some(Restore(b, t).rows)
  {
  }

  /** An accepted well-formed bundle is restored without a row lost, and the
      renaming commutes with every reference: each row comes back in its place,
      pointing where it pointed. */
  lemma RestoreKeepsTheReferences(b: Bundle, t: Target)
    requires WellFormed(b) && Restore(b, t).Done?
    ensures BundleKept(b, Restore(b, t).rows)
  {
    var o := RowsAreBuilt(b, t);
    DoneRows(b, t);
  }

  lemma SeriesNumbered(b: Bundle, t: Target, e: Early, o: Restored)
    requires StageOk(e, t) && RowsAre(b, e, o)
    ensures Numbered(o.recurring.series, SeriesId, o.loans.disbursements.next)
  {
    var r := ResolvedBy(e, o.cycles);
    SeriesBacked(b.series, r, e.accounts, e.filing.stage, e.payees, o.cycles, t, o.loans.disbursements.next);
  }

  ghost predicate OneToOne(o: Restored) {
    && Injective(o.early.accounts.ids) && Injective(o.cycles.ids)
    && Injective(o.txns.ids) && Injective(o.recurring.series.ids)
  }

  lemma RowsAreOneToOne(b: Bundle, t: Target, e: Early, o: Restored)
    requires StageOk(e, t) && Numbered(e.accounts, AccountId, 0) && RowsAre(b, e, o) && BundleKept(b, o)
    ensures OneToOne(o) && Numbered(o.links, JoinId, o.txns.next)
  {
    CyclesBacked(b.cycles, e.accounts, e.payees.next);
    TxnRows(b, t, e, o);
    SeriesNumbered(b, t, e, o);
    JoinsBacked(b.links, true, o.txns, TxnId, o.txns, TxnId, o.txns.next);
    KeptIsInjective(b.accounts, AccountSrc, e.accounts, AccountId, 0);
    KeptIsInjective(b.cycles, CycleSrc, o.cycles, CycleId, e.payees.next);
    KeptIsInjective(b.txns, TxnSrc, o.txns, TxnId, o.cycles.next);
    KeptIsInjective(b.series, SeriesSrc, o.recurring.series, SeriesId, o.loans.disbursements.next);
  }

  /** The renaming is one to one on accounts, cycles, transactions and series,
      and every link has a number of its own. */
  lemma RenamingIsOneToOne(b: Bundle, t: Target)
    requires WellFormed(b) && TargetOk(t) && Restore(b, t).Done?
    ensures OneToOne(Restore(b, t).rows)
    ensures Numbered(Restore(b, t).rows.links, JoinId, Restore(b, t).rows.txns.next)
  {
    var o := RowsAreBuilt(b, t);
    DoneRows(b, t);
    EarlyBacked(b, t);
    RowsAreOneToOne(b, t, EarlyOf(b, t), o);
  }
}
