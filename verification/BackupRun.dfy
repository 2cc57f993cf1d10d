/** `restoreUserBackup` as the program runs it, one loop a stage. */
module BackupRun {
  import opened Options
  import opened Ordering
  import opened BackupPayees
  import opened BackupRestore

  lemma Prefix<T>(xs: seq<T>, i: nat)
    requires i < |xs|
    ensures xs[..i + 1][..i] == xs[..i] && xs[..i + 1][i] == xs[i] && |xs[..i + 1]| == i + 1
  {
  }

  method RestoreAccounts(xs: seq<BAccount>) returns (s: Stage<AccountRow>)
    ensures s == Accounts(xs, 0)
  {
    s := Begin(0);
    var defaultUsed := false;
    for i := 0 to |xs|
      invariant s == Accounts(xs[..i], 0)
      invariant defaultUsed <==> exists k :: 0 <= k < i && xs[k].isDefault
    {
      Prefix(xs, i);
      var isDefault := xs[i].isDefault && !defaultUsed;
      if isDefault {
        defaultUsed := true;
      }
      s := Emit(s, xs[i].id, AccountRow(New(s.next), xs[i].typ, isDefault));
    }
    assert xs[..|xs|] == xs;
  }

  method RestoreGroups(xs: seq<BGroup>, t: Target, next: nat) returns (s: Stage<GroupRow>)
    ensures s == Groups(xs, t, next)
  {
    s := Begin(next);
    for i := 0 to |xs|
      invariant s == Groups(xs[..i], t, next)
    {
      Prefix(xs, i);
      if xs[i].name in t.ownGroups {
        s := s.(ids := s.ids[xs[i].id := Old(t.ownGroups[xs[i].name])]);
      } else {
        s := Emit(s, xs[i].id, GroupRow(New(s.next), xs[i].name));
      }
    }
    assert xs[..|xs|] == xs;
  }

  method RestoreCategories(xs: seq<BCategory>, groupIds: Ids, groups: seq<GroupRow>, t: Target, next: nat)
    returns (f: Filing, moved: nat)
    ensures f == Categories(xs, groupIds, groups, t, next)
  {
    f, moved := Filing(Begin(next), groups, None), 0;
    for i := 0 to |xs|
      invariant f == Categories(xs[..i], groupIds, groups, t, next)
    {
      Prefix(xs, i);
      ghost var before := f;
      var group: Ref;
      var known := GroupOf(xs[i].group, groupIds, t);
      if known.Some? {
        group := known.value;
      } else {
        f := Fallback(f, t);
        group := f.fallback.value;
        moved := moved + 1;
      }
      f := File(f, xs[i], group, t);
      assert f == FileOne(before, xs[i], groupIds, t);
    }
    assert xs[..|xs|] == xs;
  }

  /** The folded payees first, then the inserted ones over them. */
  method FoldInto(inserted: Ids, folded: map<SrcId, SrcId>) returns (ids: Ids)
    ensures ids == PayeeIds(inserted, folded)
  {
    ids := map[];
    var rest := folded.Keys;
    while rest != {}
      invariant rest <= folded.Keys
      invariant ids == map id | id in folded && id !in rest && folded[id] in inserted :: inserted[folded[id]]
      decreases rest
    {
      var id :| id in rest;
      rest := rest - {id};
      if folded[id] in inserted {
        ids := ids[id := inserted[folded[id]]];
      }
    }
    ids := ids + inserted;
  }

  method RestorePayees(xs: seq<Payee>, accounts: Ids, next: nat) returns (s: Stage<PayeeRow>)
    ensures s == Payees(xs, accounts, next)
  {
    var kept, folded := MergeBackupPayees(xs);
    s := Begin(next);
    for i := 0 to |kept|
      invariant s == PayeeRows(kept[..i], accounts, next)
    {
      Prefix(kept, i);
      s := Emit(s, kept[i].id, PayeeRow(New(s.next), kept[i].name, MapRef(accounts, kept[i].account)));
    }
    assert kept[..|kept|] == kept;
    var ids := FoldInto(s.ids, folded);
    s := s.(ids := ids);
  }

  lemma {:induction false} CyclesFail(xs: seq<BCycle>, accounts: Ids, next: nat, i: nat)
    requires i <= |xs| && Cycles(xs[..i], accounts, next) == None
    ensures Cycles(xs, accounts, next) == None
    decreases |xs| - i
  {
    if i == |xs| {
      assert xs[..i] == xs;
    } else {
      Prefix(xs, i);
      CyclesFail(xs, accounts, next, i + 1);
    }
  }

  method RestoreCycles(xs: seq<BCycle>, accounts: Ids, next: nat) returns (r: Option<Stage<CycleRow>>)
    ensures r == Cycles(xs, accounts, next)
  {
    var s := Begin(next);
    for i := 0 to |xs|
      invariant Cycles(xs[..i], accounts, next) == Some(s)
    {
      Prefix(xs, i);
      if xs[i].account !in accounts {
        continue;
      }
      if !xs[i].sound {
        CyclesFail(xs, accounts, next, i + 1);
        return None;
      }
      s := Emit(s, xs[i].id, CycleRow(New(s.next), accounts[xs[i].account], xs[i].start));
    }
    assert xs[..|xs|] == xs;
    r := Some(s);
  }

  lemma {:induction false} TxnsFail(xs: seq<BTxn>, m: Resolved, next: nat, i: nat)
    requires i <= |xs| && Txns(xs[..i], m, next) == None
    ensures Txns(xs, m, next) == None
    decreases |xs| - i
  {
    if i == |xs| {
      assert xs[..i] == xs;
    } else {
      Prefix(xs, i);
      TxnsFail(xs, m, next, i + 1);
    }
  }

  method RestoreTxns(xs: seq<BTxn>, m: Resolved, next: nat) returns (r: Option<Stage<TxnRow>>)
    ensures r == Txns(xs, m, next)
  {
    var s := Begin(next);
    for i := 0 to |xs|
      invariant Txns(xs[..i], m, next) == Some(s)
    {
      Prefix(xs, i);
      if xs[i].account !in m.accounts {
        continue;
      }
      if !xs[i].sound {
        TxnsFail(xs, m, next, i + 1);
        return None;
      }
      var account, cycle := m.accounts[xs[i].account], MapRef(m.cycles, xs[i].cycle);
      if cycle.Some? && !OwnCycle(m.cycleRows, cycle.value, account) {
        cycle := None;
      }
      s := Emit(s, xs[i].id, TxnRow(New(s.next), account, MapRef(m.categories, xs[i].category),
          MapRef(m.payees, xs[i].payee), cycle));
    }
    assert xs[..|xs|] == xs;
    r := Some(s);
  }

  lemma {:induction false} JoinsFail(xs: seq<Join<SrcId>>, checked: bool, from: Ids, to: Ids, next: nat, i: nat)
    requires i <= |xs| && Joins(xs[..i], checked, from, to, next) == None
    ensures Joins(xs, checked, from, to, next) == None
    decreases |xs| - i
  {
    if i == |xs| {
      assert xs[..i] == xs;
    } else {
      Prefix(xs, i);
      JoinsFail(xs, checked, from, to, next, i + 1);
    }
  }

  method RestoreJoins(xs: seq<Join<SrcId>>, checked: bool, from: Ids, to: Ids, next: nat)
    returns (r: Option<Stage<JoinRow>>)
    ensures r == Joins(xs, checked, from, to, next)
  {
    var s := Begin(next);
    for i := 0 to |xs|
      invariant Joins(xs[..i], checked, from, to, next) == Some(s)
    {
      Prefix(xs, i);
      if !Joinable(xs[i], from, to) {
        continue;
      }
      if checked && !xs[i].sound {
        JoinsFail(xs, checked, from, to, next, i + 1);
        return None;
      }
      s := s.(rows := s.rows + [JoinRow(New(s.next), JoinImage(xs[i], from, to))], next := s.next + 1);
    }
    assert xs[..|xs|] == xs;
    r := Some(s);
  }

  method RestoreLoans(b: Bundle, accounts: Ids, txns: Ids, next: nat) returns (r: Option<Loans>)
    ensures r == LoansOf(b, accounts, txns, next)
  {
    var attachments :- RestoreJoins(b.attachments, false, accounts, txns, next);
    var schedules :- RestoreJoins(b.schedules, true, accounts, accounts, attachments.next);
    var transfers :- RestoreJoins(b.transfers, true, accounts, accounts, schedules.next);
    var disbursements :- RestoreJoins(b.disbursements, false, accounts, txns, transfers.next);
    r := Some(Loans(attachments, schedules, transfers, disbursements));
  }

  lemma {:induction false} SeriesFail(xs: seq<BSeries>, m: Resolved, next: nat, i: nat)
    requires i <= |xs| && Series(xs[..i], m, next) == None
    ensures Series(xs, m, next) == None
    decreases |xs| - i
  {
    if i == |xs| {
      assert xs[..i] == xs;
    } else {
      Prefix(xs, i);
      SeriesFail(xs, m, next, i + 1);
    }
  }

  method RestoreSeries(xs: seq<BSeries>, m: Resolved, next: nat) returns (r: Option<Stage<SeriesRow>>)
    ensures r == Series(xs, m, next)
  {
    var s := Begin(next);
    for i := 0 to |xs|
      invariant Series(xs[..i], m, next) == Some(s)
    {
      Prefix(xs, i);
      if !xs[i].sound {
        SeriesFail(xs, m, next, i + 1);
        return None;
      }
      var category, payee := MapRef(m.categories, xs[i].category), MapRef(m.payees, xs[i].payee);
      s := Emit(s, xs[i].id, SeriesRow(New(s.next), category, payee, xs[i].fits));
    }
    assert xs[..|xs|] == xs;
    r := Some(s);
  }

  method RestoreRecurring(b: Bundle, m: Resolved, txns: Ids, next: nat) returns (r: Option<Recurring>)
    ensures r == RecurringOf(b, m, txns, next)
  {
    var series :- RestoreSeries(b.series, m, next);
    var terms :- RestoreJoins(b.terms, true, series.ids, m.accounts, series.next);
    var attachments :- RestoreJoins(b.recurring, false, series.ids, txns, terms.next);
    r := Some(Recurring(series, terms, attachments));
  }

  lemma {:induction false} RulesFail(xs: seq<BRule>, m: Resolved, next: nat, i: nat)
    requires i <= |xs| && Rules(xs[..i], m, next) == None
    ensures Rules(xs, m, next) == None
    decreases |xs| - i
  {
    if i == |xs| {
      assert xs[..i] == xs;
    } else {
      Prefix(xs, i);
      RulesFail(xs, m, next, i + 1);
    }
  }

  method RestoreRules(xs: seq<BRule>, m: Resolved, next: nat) returns (r: Option<Stage<RuleRow>>)
    ensures r == Rules(xs, m, next)
  {
    var s := Begin(next);
    for i := 0 to |xs|
      invariant Rules(xs[..i], m, next) == Some(s)
    {
      Prefix(xs, i);
      if xs[i].category !in m.categories {
        continue;
      }
      if !xs[i].sound {
        RulesFail(xs, m, next, i + 1);
        return None;
      }
      s := s.(rows := s.rows + [RuleRowOf(xs[i], m, New(s.next))], next := s.next + 1);
    }
    assert xs[..|xs|] == xs;
    r := Some(s);
  }

  /** The rows of every stage after the payees, or none. */
  method RestoreRows(b: Bundle, early: Early) returns (r: Option<Restored>)
    ensures r == RowsFrom(b, early)
  {
    var cycles :- RestoreCycles(b.cycles, early.accounts.ids, early.payees.next);
    var m := ResolvedBy(early, cycles);
    var txns :- RestoreTxns(b.txns, m, cycles.next);
    var links :- RestoreJoins(b.links, true, txns.ids, txns.ids, txns.next);
    var loans :- RestoreLoans(b, m.accounts, txns.ids, links.next);
    var recurring :- RestoreRecurring(b, m, txns.ids, loans.disbursements.next);
    var rules :- RestoreRules(b.rules, m, recurring.attachments.next);
    r := Some(Restored(early, cycles, txns, links, loans, recurring, rules));
  }

  /** The whole restore: refused on a ledger with accounts, given up as a whole
      on the first malformed row it reaches or when the tables refuse a row. */
  method RestoreUserBackup(b: Bundle, t: Target) returns (o: Outcome)
    ensures o == Restore(b, t)
  {
    if t.accounts > 0 {
      return Conflict;
    }
    if !TypesKnown(b, t) {
      return Malformed;
    }
    var accounts := RestoreAccounts(b.accounts);
    var groups := RestoreGroups(b.groups, t, accounts.next);
    var filing, moved := RestoreCategories(b.categories, groups.ids, groups.rows, t, groups.next);
    var payees := RestorePayees(b.payees, accounts.ids, filing.stage.next);
    var rows := RestoreRows(b, Early(accounts, groups, filing, payees));
    if rows == None {
      return Malformed;
    }
    if !Storable(rows.value, t) {
      return Refused;
    }
    o := Done(rows.value);
  }
}
