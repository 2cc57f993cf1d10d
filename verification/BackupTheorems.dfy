/** What a restore guarantees about the rows it inserts. */
module BackupTheorems {
  import opened Options
  import opened BackupPayees
  import opened BackupRestore

  ghost predicate HasId<T(!new)>(rows: seq<T>, id: T -> Ref, r: Ref) {
    exists i :: 0 <= i < |rows| && id(rows[i]) == r
  }

  /** Every identifier handed out is an inserted row's or one the target had. */
  ghost predicate Backed<T(!new)>(s: Stage<T>, id: T -> Ref, had: set<string>) {
    forall x :: x in s.ids ==> (if s.ids[x].Old? then s.ids[x].id in had else HasId(s.rows, id, s.ids[x]))
  }

  /** Inserted rows carry fresh numbers of the stage, each its own. */
  ghost predicate Numbered<T(!new)>(s: Stage<T>, id: T -> Ref, from: nat) {
    && from <= s.next
    && (forall i :: 0 <= i < |s.rows| ==> id(s.rows[i]).New? && from <= id(s.rows[i]).n < s.next)
    && (forall i, j :: 0 <= i < j < |s.rows| ==> id(s.rows[i]) != id(s.rows[j]))
  }

  lemma EmitKeeps<T(!new)>(s: Stage<T>, src: SrcId, row: T, id: T -> Ref, had: set<string>, from: nat)
    requires Backed(s, id, had) && Numbered(s, id, from) && id(row) == New(s.next)
    ensures Backed(Emit(s, src, row), id, had) && Numbered(Emit(s, src, row), id, from)
  {
    var t := Emit(s, src, row);
    assert id(t.rows[|s.rows|]) == New(s.next);
    forall x | x in t.ids && t.ids[x].New?
      ensures HasId(t.rows, id, t.ids[x])
    {
      if t.ids[x] != New(s.next) {
        var i :| 0 <= i < |s.rows| && id(s.rows[i]) == s.ids[x];
        assert id(t.rows[i]) == t.ids[x];
      }
    }
  }

  const AccountId := (r: AccountRow) => r.id
  const GroupId := (r: GroupRow) => r.id
  const CategoryId := (r: CategoryRow) => r.id
  const PayeeId := (r: PayeeRow) => r.id
  const CycleId := (r: CycleRow) => r.id
  const TxnId := (r: TxnRow) => r.id
  const SeriesId := (r: SeriesRow) => r.id
  const JoinId := (r: JoinRow) => r.id

  // ----- accounts, groups, payees

  lemma {:induction false} AccountsBacked(xs: seq<BAccount>, next: nat)
    ensures Backed(Accounts(xs, next), AccountId, {}) && Numbered(Accounts(xs, next), AccountId, next)
  {
    if xs != [] {
      var init, x := xs[..|xs| - 1], xs[|xs| - 1];
      AccountsBacked(init, next);
      var s := Accounts(init, next);
      EmitKeeps(s, x.id, Accounts(xs, next).rows[|s.rows|], AccountId, {}, next);
    }
  }

  /** The restored ledger has a default account exactly when the bundle marks
      one, and then only one. */
  lemma {:induction false} OneDefault(xs: seq<BAccount>, next: nat)
    ensures var rows := Accounts(xs, next).rows;
            && |rows| == |xs|
            && (forall i :: 0 <= i < |rows| ==>
                 (rows[i].isDefault <==> xs[i].isDefault && forall k :: 0 <= k < i ==> !xs[k].isDefault))
  {
    if xs != [] {
      OneDefault(xs[..|xs| - 1], next);
    }
  }

  lemma {:induction false} GroupsBacked(xs: seq<BGroup>, t: Target, next: nat)
    requires TargetOk(t)
    ensures Backed(Groups(xs, t, next), GroupId, t.groups) && Numbered(Groups(xs, t, next), GroupId, next)
  {
    if xs != [] {
      var x := xs[|xs| - 1];
      GroupsBacked(xs[..|xs| - 1], t, next);
      var s := Groups(xs[..|xs| - 1], t, next);
      EmitKeeps(s, x.id, GroupRow(New(s.next), x.name), GroupId, t.groups, next);
    }
  }

  lemma {:induction false} PayeeRowsBacked(kept: seq<Payee>, accounts: Ids, next: nat)
    ensures Backed(PayeeRows(kept, accounts, next), PayeeId, {})
    ensures Numbered(PayeeRows(kept, accounts, next), PayeeId, next)
    ensures forall p :: p in kept ==> p.id in PayeeRows(kept, accounts, next).ids
  {
    if kept != [] {
      var p := kept[|kept| - 1];
      PayeeRowsBacked(kept[..|kept| - 1], accounts, next);
      var s := PayeeRows(kept[..|kept| - 1], accounts, next);
      EmitKeeps(s, p.id, PayeeRow(New(s.next), p.name, MapRef(accounts, p.account)), PayeeId, {}, next);
    }
  }

  lemma PayeesBacked(xs: seq<Payee>, accounts: Ids, next: nat)
    ensures Backed(Payees(xs, accounts, next), PayeeId, {}) && Numbered(Payees(xs, accounts, next), PayeeId, next)
  {
    PayeeRowsBacked(KeptOf(xs, |xs|), accounts, next);
  }

  lemma {:induction false} PayeeRowAccounts(kept: seq<Payee>, accounts: Ids, next: nat)
    ensures var rows := PayeeRows(kept, accounts, next).rows;
            |rows| == |kept| && forall i :: 0 <= i < |rows| ==> rows[i].account == MapRef(accounts, kept[i].account)
  {
    if kept != [] {
      PayeeRowAccounts(kept[..|kept| - 1], accounts, next);
    }
  }

  /** A row's optional reference names an inserted row or one the target had. */
  ghost predicate Resolves<T(!new)>(ref: Option<Ref>, rows: seq<T>, id: T -> Ref, had: set<string>) {
    ref.Some? ==> (if ref.value.Old? then ref.value.id in had else HasId(rows, id, ref.value))
  }

  lemma MapRefResolves<T(!new)>(s: Stage<T>, id: T -> Ref, had: set<string>, x: Option<SrcId>)
    requires Backed(s, id, had)
    ensures Resolves(MapRef(s.ids, x), s.rows, id, had)
  {
  }

  /** A payee's linked account is an inserted one. */
  lemma PayeeAccountsResolve(xs: seq<Payee>, accounts: Stage<AccountRow>, next: nat)
    requires Backed(accounts, AccountId, {})
    ensures var rows := Payees(xs, accounts.ids, next).rows;
            forall i :: 0 <= i < |rows| ==> Resolves(rows[i].account, accounts.rows, AccountId, {})
  {
    var kept := KeptOf(xs, |xs|);
    PayeeRowAccounts(kept, accounts.ids, next);
    var rows := Payees(xs, accounts.ids, next).rows;
    forall i | 0 <= i < |rows|
      ensures Resolves(rows[i].account, accounts.rows, AccountId, {})
    {
      MapRefResolves(accounts, AccountId, {}, kept[i].account);
    }
  }

  /** Every payee of the bundle has a row to answer to, folded ones included. */
  lemma EveryPayeeIsMapped(xs: seq<Payee>, accounts: Ids, next: nat, p: Payee)
    requires UniqueIds(xs) && p in xs
    ensures p.id in Payees(xs, accounts, next).ids
  {
    NobodyIsLost(xs, p);
    PayeeRowsBacked(KeptOf(xs, |xs|), accounts, next);
  }

  // ----- categories

  /** A category's group is an inserted group or one the target had. */
  ghost predicate FiledUnder(group: Ref, groups: seq<GroupRow>, t: Target) {
    if group.Old? then group.id in t.groups else HasId(groups, GroupId, group)
  }

  function CategoriesHad(t: Target): set<string> {
    set k | k in t.categories :: t.categories[k]
  }

  ghost predicate FilingOk(f: Filing, t: Target, from: nat) {
    && Backed(f.stage, CategoryId, CategoriesHad(t)) && Numbered(f.stage, CategoryId, from)
    && (forall i :: 0 <= i < |f.stage.rows| ==> FiledUnder(f.stage.rows[i].group, f.groups, t))
    && (f.fallback.Some? ==> FiledUnder(f.fallback.value, f.groups, t))
  }

  lemma GrowGroups(group: Ref, groups: seq<GroupRow>, row: GroupRow, t: Target)
    requires FiledUnder(group, groups, t)
    ensures FiledUnder(group, groups + [row], t)
  {
    if group.New? {
      var i :| 0 <= i < |groups| && GroupId(groups[i]) == group;
      assert GroupId((groups + [row])[i]) == group;
    }
  }

  lemma FallbackKeeps(f: Filing, t: Target, from: nat)
    requires TargetOk(t) && FilingOk(f, t, from)
    ensures FilingOk(Fallback(f, t), t, from) && Fallback(f, t).fallback.Some? && f.groups <= Fallback(f, t).groups
  {
    var g := Fallback(f, t);
    if f.fallback == None && FALLBACK !in t.ownGroups {
      var row := GroupRow(New(f.stage.next), FALLBACK);
      assert GroupId(g.groups[|f.groups|]) == New(f.stage.next);
      forall i | 0 <= i < |g.stage.rows|
        ensures FiledUnder(g.stage.rows[i].group, g.groups, t)
      {
        GrowGroups(g.stage.rows[i].group, f.groups, row, t);
      }
    }
  }

  lemma FileKeeps(f: Filing, x: BCategory, group: Ref, t: Target, from: nat)
    requires FilingOk(f, t, from) && FiledUnder(group, f.groups, t)
    ensures FilingOk(File(f, x, group, t), t, from) && File(f, x, group, t).groups == f.groups
  {
    EmitKeeps(f.stage, x.id, CategoryRow(New(f.stage.next), x.name, group), CategoryId, CategoriesHad(t), from);
  }

  lemma GroupsAreThere(group: Ref, groups: Stage<GroupRow>, grown: seq<GroupRow>, raw: SrcId, t: Target)
    requires Backed(groups, GroupId, t.groups) && groups.rows <= grown && GroupOf(raw, groups.ids, t) == Some(group)
    ensures FiledUnder(group, grown, t)
  {
    if group.New? {
      var i :| 0 <= i < |groups.rows| && GroupId(groups.rows[i]) == group;
      assert GroupId(grown[i]) == group;
    }
  }

  lemma {:induction false} CategoriesFiled(xs: seq<BCategory>, groups: Stage<GroupRow>, t: Target, next: nat)
    requires TargetOk(t) && Backed(groups, GroupId, t.groups)
    ensures FilingOk(Categories(xs, groups.ids, groups.rows, t, next), t, next)
    ensures groups.rows <= Categories(xs, groups.ids, groups.rows, t, next).groups
  {
    if xs != [] {
      var init, x := xs[..|xs| - 1], xs[|xs| - 1];
      CategoriesFiled(init, groups, t, next);
      var f := Categories(init, groups.ids, groups.rows, t, next);
      match GroupOf(x.group, groups.ids, t)
      case Some(group) =>
        GroupsAreThere(group, groups, f.groups, x.group, t);
        FileKeeps(f, x, group, t, next);
      case None =>
        FallbackKeeps(f, t, next);
        var g := Fallback(f, t);
        FileKeeps(g, x, g.fallback.value, t, next);
    }
  }

  // ----- cycles and transactions

  lemma {:induction false} CyclesBacked(xs: seq<BCycle>, accounts: Stage<AccountRow>, next: nat)
    requires Backed(accounts, AccountId, {}) && Cycles(xs, accounts.ids, next).Some?
    ensures var s := Cycles(xs, accounts.ids, next).value;
            && Backed(s, CycleId, {}) && Numbered(s, CycleId, next)
            && (forall i :: 0 <= i < |s.rows| ==> HasId(accounts.rows, AccountId, s.rows[i].account))
  {
    if xs != [] {
      var init, x := xs[..|xs| - 1], xs[|xs| - 1];
      CyclesBacked(init, accounts, next);
      var s := Cycles(init, accounts.ids, next).value;
      if x.account in accounts.ids {
        EmitKeeps(s, x.id, CycleRow(New(s.next), accounts.ids[x.account], x.start), CycleId, {}, next);
      }
    }
  }

  /** All of a transaction row's references resolve, its cycle to one of its own
      account. */
  ghost predicate TxnResolves(row: TxnRow, accounts: seq<AccountRow>, categories: seq<CategoryRow>,
                              payees: seq<PayeeRow>,
                              cycles: seq<CycleRow>, t: Target) {
    && HasId(accounts, AccountId, row.account)
    && Resolves(row.category, categories, CategoryId, CategoriesHad(t))
    && Resolves(row.payee, payees, PayeeId, {})
    && (row.cycle.Some? ==>
         exists k :: 0 <= k < |cycles| && cycles[k].id == row.cycle.value && cycles[k].account == row.account)
  }

  ghost predicate Stages(r: Resolved, accounts: Stage<AccountRow>, categories: Stage<CategoryRow>,
                         payees: Stage<PayeeRow>,
                         cycles: Stage<CycleRow>, t: Target) {
    && r == Resolved(accounts.ids, categories.ids, payees.ids, cycles.ids, cycles.rows)
    && Backed(accounts, AccountId, {}) && Backed(categories, CategoryId, CategoriesHad(t))
    && Backed(payees, PayeeId, {})
  }

  lemma {:induction false} TxnsResolve(xs: seq<BTxn>, r: Resolved, accounts: Stage<AccountRow>,
                                       categories: Stage<CategoryRow>,
                                       payees: Stage<PayeeRow>, cycles: Stage<CycleRow>, t: Target, next: nat)
    requires Stages(r, accounts, categories, payees, cycles, t) && Txns(xs, r, next).Some?
    ensures var s := Txns(xs, r, next).value;
            && Backed(s, TxnId, {}) && Numbered(s, TxnId, next)
            && (forall i :: 0 <= i < |s.rows| ==>
                 TxnResolves(s.rows[i], accounts.rows, categories.rows, payees.rows, cycles.rows, t))
  {
    if xs != [] {
      var init, x := xs[..|xs| - 1], xs[|xs| - 1];
      TxnsResolve(init, r, accounts, categories, payees, cycles, t, next);
      var s := Txns(init, r, next).value;
      if x.account in r.accounts {
        EmitKeeps(s, x.id, TxnRowOf(x, r, New(s.next)), TxnId, {}, next);
        MapRefResolves(categories, CategoryId, CategoriesHad(t), x.category);
        MapRefResolves(payees, PayeeId, {}, x.payee);
      }
    }
  }

  // ----- the rows that tie others together

  /** Both ends of every row are among the rows of the tables it ties. */
  ghost predicate JoinsResolve<F(!new), T(!new)>(rows: seq<JoinRow>, from: seq<F>, fromId: F -> Ref, to: seq<T>,
                                                 toId: T -> Ref) {
    forall i :: 0 <= i < |rows| ==> HasId(from, fromId, rows[i].join.from) && Resolves(rows[i].join.to, to, toId, {})
  }

  lemma {:induction false} JoinsBacked<F(!new), T(!new)>(
    xs: seq<Join<SrcId>>, checked: bool, from: Stage<F>, fromId: F -> Ref, to: Stage<T>, toId: T -> Ref, next: nat)
    requires Backed(from, fromId, {}) && Backed(to, toId, {}) && Joins(xs, checked, from.ids, to.ids, next).Some?
    ensures var s := Joins(xs, checked, from.ids, to.ids, next).value;
            JoinsResolve(s.rows, from.rows, fromId, to.rows, toId) && Numbered(s, JoinId, next) && s.ids == map[]
  {
    if xs != [] {
      var x := xs[|xs| - 1];
      JoinsBacked(xs[..|xs| - 1], checked, from, fromId, to, toId, next);
      MapRefResolves(to, toId, {}, x.to);
    }
  }

  ghost predicate LoansResolve(loans: Loans, accounts: seq<AccountRow>, txns: seq<TxnRow>) {
    && JoinsResolve(loans.attachments.rows, accounts, AccountId, txns, TxnId)
    && JoinsResolve(loans.schedules.rows, accounts, AccountId, accounts, AccountId)
    && JoinsResolve(loans.transfers.rows, accounts, AccountId, accounts, AccountId)
    && JoinsResolve(loans.disbursements.rows, accounts, AccountId, txns, TxnId)
  }

  lemma LoansBacked(b: Bundle, accounts: Stage<AccountRow>, txns: Stage<TxnRow>, next: nat)
    requires Backed(accounts, AccountId, {}) && Backed(txns, TxnId, {})
    requires LoansOf(b, accounts.ids, txns.ids, next).Some?
    ensures LoansResolve(LoansOf(b, accounts.ids, txns.ids, next).value, accounts.rows, txns.rows)
  {
    var loans := LoansOf(b, accounts.ids, txns.ids, next).value;
    JoinsBacked(b.attachments, false, accounts, AccountId, txns, TxnId, next);
    JoinsBacked(b.schedules, true, accounts, AccountId, accounts, AccountId, loans.attachments.next);
    JoinsBacked(b.transfers, true, accounts, AccountId, accounts, AccountId, loans.schedules.next);
    JoinsBacked(b.disbursements, false, accounts, AccountId, txns, TxnId, loans.transfers.next);
  }

  // ----- recurring series and rules

  ghost predicate SeriesResolves(row: SeriesRow, categories: seq<CategoryRow>, payees: seq<PayeeRow>, t: Target) {
    Resolves(row.category, categories, CategoryId, CategoriesHad(t)) && Resolves(row.payee, payees, PayeeId, {})
  }

  lemma {:induction false} SeriesBacked(xs: seq<BSeries>, r: Resolved, accounts: Stage<AccountRow>,
                                        categories: Stage<CategoryRow>,
                                        payees: Stage<PayeeRow>, cycles: Stage<CycleRow>, t: Target, next: nat)
    requires Stages(r, accounts, categories, payees, cycles, t) && Series(xs, r, next).Some?
    ensures var s := Series(xs, r, next).value;
            && Backed(s, SeriesId, {}) && Numbered(s, SeriesId, next)
            && forall i :: 0 <= i < |s.rows| ==> SeriesResolves(s.rows[i], categories.rows, payees.rows, t)
  {
    if xs != [] {
      var init, x := xs[..|xs| - 1], xs[|xs| - 1];
      SeriesBacked(init, r, accounts, categories, payees, cycles, t, next);
      var s := Series(init, r, next).value;
      EmitKeeps(s, x.id, Series(xs, r, next).value.rows[|s.rows|], SeriesId, {}, next);
      MapRefResolves(categories, CategoryId, CategoriesHad(t), x.category);
      MapRefResolves(payees, PayeeId, {}, x.payee);
    }
  }

  ghost predicate RecurringResolves(o: Recurring, accounts: seq<AccountRow>, categories: seq<CategoryRow>,
                                    payees: seq<PayeeRow>, txns: seq<TxnRow>, t: Target) {
    && (forall i :: 0 <= i < |o.series.rows| ==> SeriesResolves(o.series.rows[i], categories, payees, t))
    && JoinsResolve(o.terms.rows, o.series.rows, SeriesId, accounts, AccountId)
    && JoinsResolve(o.attachments.rows, o.series.rows, SeriesId, txns, TxnId)
  }

  lemma RecurringBacked(b: Bundle, r: Resolved, accounts: Stage<AccountRow>, categories: Stage<CategoryRow>,
                        payees: Stage<PayeeRow>, cycles: Stage<CycleRow>, txns: Stage<TxnRow>, t: Target, next: nat)
    requires Stages(r, accounts, categories, payees, cycles, t) && Backed(txns, TxnId, {})
    requires RecurringOf(b, r, txns.ids, next).Some?
    ensures RecurringResolves(RecurringOf(b, r, txns.ids, next).value, accounts.rows, categories.rows, payees.rows,
              txns.rows, t)
  {
    var o := RecurringOf(b, r, txns.ids, next).value;
    SeriesBacked(b.series, r, accounts, categories, payees, cycles, t, next);
    JoinsBacked(b.terms, true, o.series, SeriesId, accounts, AccountId, o.series.next);
    JoinsBacked(b.recurring, false, o.series, SeriesId, txns, TxnId, o.terms.next);
  }

  ghost predicate RuleResolves(row: RuleRow, accounts: seq<AccountRow>, categories: seq<CategoryRow>,
                               payees: seq<PayeeRow>, t: Target) {
    && Resolves(Some(row.category), categories, CategoryId, CategoriesHad(t))
    && Resolves(row.filterCategory, categories, CategoryId, CategoriesHad(t))
    && Resolves(row.account, accounts, AccountId, {})
    && Resolves(row.payee, payees, PayeeId, {}) && Resolves(row.filterPayee, payees, PayeeId, {})
  }

  lemma {:induction false} RulesResolve(xs: seq<BRule>, r: Resolved, accounts: Stage<AccountRow>,
                                        categories: Stage<CategoryRow>,
                                        payees: Stage<PayeeRow>, cycles: Stage<CycleRow>, t: Target, next: nat)
    requires Stages(r, accounts, categories, payees, cycles, t) && Rules(xs, r, next).Some?
    ensures var rows := Rules(xs, r, next).value.rows;
            forall i :: 0 <= i < |rows| ==> RuleResolves(rows[i], accounts.rows, categories.rows, payees.rows, t)
  {
    if xs != [] {
      var x := xs[|xs| - 1];
      RulesResolve(xs[..|xs| - 1], r, accounts, categories, payees, cycles, t, next);
      if x.category in r.categories {
        MapRefResolves(categories, CategoryId, CategoriesHad(t), Some(x.category));
        MapRefResolves(categories, CategoryId, CategoriesHad(t), x.filterCategory);
        MapRefResolves(accounts, AccountId, {}, x.account);
        MapRefResolves(payees, PayeeId, {}, x.payee);
        MapRefResolves(payees, PayeeId, {}, x.filterPayee);
      }
    }
  }

  // ----- every reference

  ghost predicate EarlyResolves(e: Early, t: Target) {
    && (forall i :: 0 <= i < |e.filing.stage.rows| ==> FiledUnder(e.filing.stage.rows[i].group, e.filing.groups, t))
    && (forall i :: 0 <= i < |e.payees.rows| ==> Resolves(e.payees.rows[i].account, e.accounts.rows, AccountId, {}))
  }

  ghost predicate RowsResolve(o: Restored, t: Target) {
    var e := o.early;
    && (forall i :: 0 <= i < |o.cycles.rows| ==> HasId(e.accounts.rows, AccountId, o.cycles.rows[i].account))
    && (forall i :: 0 <= i < |o.txns.rows| ==>
          TxnResolves(o.txns.rows[i], e.accounts.rows, e.filing.stage.rows, e.payees.rows, o.cycles.rows, t))
    && JoinsResolve(o.links.rows, o.txns.rows, TxnId, o.txns.rows, TxnId)
    && LoansResolve(o.loans, e.accounts.rows, o.txns.rows)
    && RecurringResolves(o.recurring, e.accounts.rows, e.filing.stage.rows, e.payees.rows, o.txns.rows, t)
    && (forall i :: 0 <= i < |o.rules.rows| ==>
          RuleResolves(o.rules.rows[i], e.accounts.rows, e.filing.stage.rows, e.payees.rows, t))
  }

  lemma EarlyBacked(b: Bundle, t: Target)
    requires TargetOk(t)
    ensures var e := EarlyOf(b, t);
            && EarlyResolves(e, t) && Backed(e.accounts, AccountId, {}) && Numbered(e.accounts, AccountId, 0)
            && Backed(e.filing.stage, CategoryId, CategoriesHad(t)) && Backed(e.payees, PayeeId, {})
  {
    var e := EarlyOf(b, t);
    AccountsBacked(b.accounts, 0);
    GroupsBacked(b.groups, t, e.accounts.next);
    CategoriesFiled(b.categories, e.groups, t, e.groups.next);
    PayeesBacked(b.payees, e.accounts.ids, e.filing.stage.next);
    PayeeAccountsResolve(b.payees, e.accounts, e.filing.stage.next);
  }

  /** The stages after the early ones, one equation each. */
  ghost predicate RowsAre(b: Bundle, e: Early, o: Restored) {
    var r := ResolvedBy(e, o.cycles);
    && o.early == e && Cycles(b.cycles, e.accounts.ids, e.payees.next) == Some(o.cycles)
    && Txns(b.txns, r, o.cycles.next) == Some(o.txns)
    && Joins(b.links, true, o.txns.ids, o.txns.ids, o.txns.next) == Some(o.links)
    && LoansOf(b, e.accounts.ids, o.txns.ids, o.links.next) == Some(o.loans)
    && RecurringOf(b, r, o.txns.ids, o.loans.disbursements.next) == Some(o.recurring)
    && Rules(b.rules, r, o.recurring.attachments.next) == Some(o.rules)
  }

  lemma RowsFromStages(b: Bundle, e: Early, o: Restored)
    ensures RowsFrom(b, e) == Some(o) <==> RowsAre(b, e, o)
  {
  }

  ghost predicate StageOk(e: Early, t: Target) {
    && Backed(e.accounts, AccountId, {}) && Backed(e.filing.stage, CategoryId, CategoriesHad(t))
    && Backed(e.payees, PayeeId, {})
  }

  lemma TxnRows(b: Bundle, t: Target, e: Early, o: Restored)
    requires StageOk(e, t) && RowsAre(b, e, o)
    ensures Backed(o.txns, TxnId, {}) && Numbered(o.txns, TxnId, o.cycles.next)
    ensures forall i :: 0 <= i < |o.txns.rows| ==>
              TxnResolves(o.txns.rows[i], e.accounts.rows, e.filing.stage.rows, e.payees.rows, o.cycles.rows, t)
  {
    TxnsResolve(b.txns, ResolvedBy(e, o.cycles), e.accounts, e.filing.stage, e.payees, o.cycles, t, o.cycles.next);
  }

  lemma RecurringRows(b: Bundle, t: Target, e: Early, o: Restored)
    requires StageOk(e, t) && RowsAre(b, e, o) && Backed(o.txns, TxnId, {})
    ensures RecurringResolves(o.recurring, e.accounts.rows, e.filing.stage.rows, e.payees.rows, o.txns.rows, t)
  {
    var r := ResolvedBy(e, o.cycles);
    RecurringBacked(b, r, e.accounts, e.filing.stage, e.payees, o.cycles, o.txns, t, o.loans.disbursements.next);
  }

  lemma RuleRows(b: Bundle, t: Target, e: Early, o: Restored)
    requires StageOk(e, t) && RowsAre(b, e, o)
    ensures forall i :: 0 <= i < |o.rules.rows| ==>
              RuleResolves(o.rules.rows[i], e.accounts.rows, e.filing.stage.rows, e.payees.rows, t)
  {
    var r := ResolvedBy(e, o.cycles);
    RulesResolve(b.rules, r, e.accounts, e.filing.stage, e.payees, o.cycles, t, o.recurring.attachments.next);
  }

  /** Whatever the bundle, a restore that builds its rows emits no dangling
      reference: each one names a row inserted by an earlier stage or a row the
      target had, and a transaction's cycle belongs to the transaction's own
      account. So no foreign key ever refuses a row. */
  lemma EveryReferenceResolves(b: Bundle, t: Target, o: Restored)
    requires TargetOk(t) && RowsFrom(b, EarlyOf(b, t)) == Some(o)
    ensures EarlyResolves(o.early, t) && RowsResolve(o, t)
  {
    var e := EarlyOf(b, t);
    EarlyBacked(b, t);
    RowsFromStages(b, e, o);
    CyclesBacked(b.cycles, e.accounts, e.payees.next);
    TxnRows(b, t, e, o);
    JoinsBacked(b.links, true, o.txns, TxnId, o.txns, TxnId, o.txns.next);
    LoansBacked(b, e.accounts, o.txns, o.links.next);
    RecurringRows(b, t, e, o);
    RuleRows(b, t, e, o);
  }
}
