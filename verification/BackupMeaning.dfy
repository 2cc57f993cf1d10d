/** What the rows of a restore stand for: which row a bundle's group, category
    or payee ends up as, said of the bundle and the target alone. */
module BackupMeaning {
  import opened Options
  import opened BackupPayees
  import opened BackupRestore
  import opened BackupTheorems
  import opened BackupRenaming
  import opened BackupAcceptance

  // ----- groups

  ghost predicate HasGroup(groups: seq<GroupRow>, row: GroupRow) {
    exists i :: 0 <= i < |groups| && groups[i] == row
  }

  /** A group is the user's own of that name, and a new one where there is none. */
  ghost predicate StandsForGroup(name: string, ref: Ref, groups: seq<GroupRow>, t: Target) {
    if name in t.ownGroups then ref == Old(t.ownGroups[name]) else ref.New? && HasGroup(groups, GroupRow(ref, name))
  }

  lemma StillStands(name: string, ref: Ref, groups: seq<GroupRow>, more: seq<GroupRow>, t: Target)
    requires StandsForGroup(name, ref, groups, t) && groups <= more
    ensures StandsForGroup(name, ref, more, t)
  {
    if name !in t.ownGroups {
      var i :| 0 <= i < |groups| && groups[i] == GroupRow(ref, name);
      assert more[i] == GroupRow(ref, name);
    }
  }

  /** `id` names the group `x`: the last of the bundle that carries it. */
  predicate NamesGroup(xs: seq<BGroup>, k: nat, id: SrcId) {
    k < |xs| && xs[k].id == id && forall j :: k < j < |xs| ==> xs[j].id != id
  }

  lemma {:induction false} GroupsStand(xs: seq<BGroup>, t: Target, next: nat, k: nat, id: SrcId)
    requires NamesGroup(xs, k, id)
    ensures id in Groups(xs, t, next).ids
    ensures StandsForGroup(xs[k].name, Groups(xs, t, next).ids[id], Groups(xs, t, next).rows, t)
  {
    var init, x := xs[..|xs| - 1], xs[|xs| - 1];
    var before, s := Groups(init, t, next), Groups(xs, t, next);
    if k < |init| {
      assert forall j :: k < j < |init| ==> init[j] == xs[j];
      GroupsStand(init, t, next, k, id);
      assert s.ids[id] == before.ids[id] && before.rows <= s.rows;
      StillStands(xs[k].name, s.ids[id], before.rows, s.rows, t);
    } else if x.name !in t.ownGroups {
      assert s.rows[|before.rows|] == GroupRow(s.ids[id], x.name);
    }
  }

  lemma {:induction false} GroupsAreNamed(xs: seq<BGroup>, t: Target, next: nat, id: SrcId)
    ensures id in Groups(xs, t, next).ids <==> exists k :: 0 <= k < |xs| && xs[k].id == id
  {
    if xs != [] {
      var init := xs[..|xs| - 1];
      GroupsAreNamed(init, t, next, id);
      assert forall k :: 0 <= k < |init| ==> init[k] == xs[k];
    }
  }

  lemma {:induction false} LastNamed(xs: seq<BGroup>, k: nat) returns (last: nat)
    requires k < |xs|
    ensures NamesGroup(xs, last, xs[k].id)
    decreases |xs| - k
  {
    if j :| k < j < |xs| && xs[j].id == xs[k].id {
      last := LastNamed(xs, j);
    } else {
      last := k;
    }
  }

  // ----- categories

  /** The group a category goes to: its own where the bundle or the target has it,
      otherwise the one named "Imported". */
  ghost predicate GoesTo(bundle: seq<BGroup>, raw: SrcId, group: Ref, groups: seq<GroupRow>, t: Target) {
    if exists k :: 0 <= k < |bundle| && bundle[k].id == raw
    then exists k: nat :: NamesGroup(bundle, k, raw) && StandsForGroup(bundle[k].name, group, groups, t)
    else if !Blank(raw) && raw in t.groups then group == Old(raw)
    else StandsForGroup("Imported", group, groups, t)
  }

  ghost predicate HasCategory(rows: seq<CategoryRow>, row: CategoryRow) {
    exists i :: 0 <= i < |rows| && rows[i] == row
  }

  /** A category filed under a group is the target's of that owner, name and group,
      and a new one of its name in that group where there is none. */
  ghost predicate FiledAs(x: BCategory, group: Ref, ref: Ref, rows: seq<CategoryRow>, t: Target) {
    var key := CategoryKey(x.global, x.name, group);
    if key in t.categories then ref == Old(t.categories[key])
    else ref.New? && HasCategory(rows, CategoryRow(ref, x.name, group))
  }

  ghost predicate StandsForCategory(bundle: seq<BGroup>, x: BCategory, ref: Ref, f: Filing, t: Target) {
    exists group :: GoesTo(bundle, x.group, group, f.groups, t) && FiledAs(x, group, ref, f.stage.rows, t)
  }

  predicate NamesCategory(xs: seq<BCategory>, k: nat, id: SrcId) {
    k < |xs| && xs[k].id == id && forall j :: k < j < |xs| ==> xs[j].id != id
  }

  lemma StillGoes(bundle: seq<BGroup>, raw: SrcId, group: Ref, groups: seq<GroupRow>, more: seq<GroupRow>, t: Target)
    requires GoesTo(bundle, raw, group, groups, t) && groups <= more
    ensures GoesTo(bundle, raw, group, more, t)
  {
    if exists k :: 0 <= k < |bundle| && bundle[k].id == raw {
      var k: nat :| NamesGroup(bundle, k, raw) && StandsForGroup(bundle[k].name, group, groups, t);
      StillStands(bundle[k].name, group, groups, more, t);
    } else if Blank(raw) || raw !in t.groups {
      StillStands("Imported", group, groups, more, t);
    }
  }

  lemma StillFiled(x: BCategory, group: Ref, ref: Ref, rows: seq<CategoryRow>, more: seq<CategoryRow>, t: Target)
    requires FiledAs(x, group, ref, rows, t) && rows <= more
    ensures FiledAs(x, group, ref, more, t)
  {
    if CategoryKey(x.global, x.name, group) !in t.categories {
      var i :| 0 <= i < |rows| && rows[i] == CategoryRow(ref, x.name, group);
      assert more[i] == CategoryRow(ref, x.name, group);
    }
  }

  lemma StillStandsFor(bundle: seq<BGroup>, x: BCategory, ref: Ref, f: Filing, g: Filing, t: Target)
    requires StandsForCategory(bundle, x, ref, f, t) && f.groups <= g.groups && f.stage.rows <= g.stage.rows
    ensures StandsForCategory(bundle, x, ref, g, t)
  {
    var group :| GoesTo(bundle, x.group, group, f.groups, t) && FiledAs(x, group, ref, f.stage.rows, t);
    StillGoes(bundle, x.group, group, f.groups, g.groups, t);
    StillFiled(x, group, ref, f.stage.rows, g.stage.rows, t);
  }

  /** The fallback, once there is one, is the group named "Imported". */
  ghost predicate FallbackIs(f: Filing, t: Target) {
    f.fallback.Some? ==> StandsForGroup("Imported", f.fallback.value, f.groups, t)
  }

  lemma FallbackStands(f: Filing, t: Target)
    requires FallbackIs(f, t)
    ensures var g := Fallback(f, t); g.fallback.Some? && FallbackIs(g, t) && f.groups <= g.groups
    ensures Fallback(f, t).stage.rows == f.stage.rows && Fallback(f, t).stage.ids == f.stage.ids
  {
    var g := Fallback(f, t);
    if f.fallback == None && FALLBACK !in t.ownGroups {
      assert g.groups[|f.groups|] == GroupRow(g.fallback.value, "Imported");
    }
  }

  lemma FileStands(f: Filing, x: BCategory, group: Ref, t: Target)
    ensures var g := File(f, x, group, t);
            && x.id in g.stage.ids && FiledAs(x, group, g.stage.ids[x.id], g.stage.rows, t)
            && g.groups == f.groups && g.fallback == f.fallback && f.stage.rows <= g.stage.rows
            && (forall id :: id != x.id ==> (id in g.stage.ids <==> id in f.stage.ids))
            && (forall id :: id != x.id && id in f.stage.ids ==> g.stage.ids[id] == f.stage.ids[id])
  {
    var g := File(f, x, group, t);
    if CategoryKey(x.global, x.name, group) !in t.categories {
      assert g.stage.rows[|f.stage.rows|] == CategoryRow(g.stage.ids[x.id], x.name, group);
    }
  }

  // A known group is the bundle's of that identifier, or the target's.
  lemma KnownGroup(bundle: seq<BGroup>, raw: SrcId, group: Ref, t: Target, next: nat)
    requires GroupOf(raw, Groups(bundle, t, next).ids, t) == Some(group)
    ensures GoesTo(bundle, raw, group, Groups(bundle, t, next).rows, t)
  {
    GroupsAreNamed(bundle, t, next, raw);
    if k :| 0 <= k < |bundle| && bundle[k].id == raw {
      var last := LastNamed(bundle, k);
      GroupsStand(bundle, t, next, last, raw);
    }
  }

  lemma OneFiled(bundle: seq<BGroup>, f: Filing, x: BCategory, t: Target, next: nat)
    requires FallbackIs(f, t) && Groups(bundle, t, next).rows <= f.groups
    ensures var g := FileOne(f, x, Groups(bundle, t, next).ids, t);
            && FallbackIs(g, t) && f.groups <= g.groups && f.stage.rows <= g.stage.rows
            && x.id in g.stage.ids && StandsForCategory(bundle, x, g.stage.ids[x.id], g, t)
            && (forall id :: id != x.id && id in f.stage.ids ==>
                 id in g.stage.ids && g.stage.ids[id] == f.stage.ids[id])
  {
    var groups := Groups(bundle, t, next);
    match GroupOf(x.group, groups.ids, t)
    case Some(group) =>
      KnownGroup(bundle, x.group, group, t, next);
      FileStands(f, x, group, t);
      StillGoes(bundle, x.group, group, groups.rows, f.groups, t);
    case None =>
      GroupsAreNamed(bundle, t, next, x.group);
      FallbackStands(f, t);
      var g := Fallback(f, t);
      FileStands(g, x, g.fallback.value, t);
      assert GoesTo(bundle, x.group, g.fallback.value, g.groups, t);
  }

  lemma {:induction false} CategoriesStand(
    xs: seq<BCategory>, bundle: seq<BGroup>, t: Target, from: nat, next: nat, k: nat, id: SrcId)
    requires k < |xs| ==> NamesCategory(xs, k, id)
    ensures var f := Categories(xs, Groups(bundle, t, from).ids, Groups(bundle, t, from).rows, t, next);
            && FallbackIs(f, t) && Groups(bundle, t, from).rows <= f.groups
            && (k < |xs| ==> id in f.stage.ids && StandsForCategory(bundle, xs[k], f.stage.ids[id], f, t))
  {
    var groups := Groups(bundle, t, from);
    if xs != [] {
      var init, x := xs[..|xs| - 1], xs[|xs| - 1];
      assert forall j :: 0 <= j < |init| ==> init[j] == xs[j];
      CategoriesStand(init, bundle, t, from, next, k, id);
      var f := Categories(init, groups.ids, groups.rows, t, next);
      OneFiled(bundle, f, x, t, from);
      if k < |init| {
        StillStandsFor(bundle, xs[k], f.stage.ids[id], f, Categories(xs, groups.ids, groups.rows, t, next), t);
      }
    }
  }

  /** Whatever refers to a bundle category afterwards refers to one of its own
      name, under the group it belongs to. */
  lemma CategoriesKeepTheirMeaning(b: Bundle, t: Target, k: nat)
    requires k < |b.categories| && NamesCategory(b.categories, k, b.categories[k].id)
    ensures var f := EarlyOf(b, t).filing;
            && b.categories[k].id in f.stage.ids
            && StandsForCategory(b.groups, b.categories[k], f.stage.ids[b.categories[k].id], f, t)
  {
    var accounts := Accounts(b.accounts, 0);
    var groups := Groups(b.groups, t, accounts.next);
    CategoriesStand(b.categories, b.groups, t, accounts.next, groups.next, k, b.categories[k].id);
  }

  // ----- nothing made up

  ghost predicate FromBundle(xs: seq<BCategory>, row: CategoryRow, t: Target) {
    exists k :: 0 <= k < |xs| && xs[k].name == row.name
      && CategoryKey(xs[k].global, xs[k].name, row.group) !in t.categories
  }

  lemma FromMore(init: seq<BCategory>, xs: seq<BCategory>, row: CategoryRow, t: Target)
    requires FromBundle(init, row, t) && init <= xs
    ensures FromBundle(xs, row, t)
  {
    var k :| 0 <= k < |init| && init[k].name == row.name
      && CategoryKey(init[k].global, init[k].name, row.group) !in t.categories;
    assert xs[k] == init[k];
  }

  lemma FiledFromBundle(xs: seq<BCategory>, f: Filing, group: Ref, t: Target)
    requires xs != [] && forall i :: 0 <= i < |f.stage.rows| ==> FromBundle(xs, f.stage.rows[i], t)
    ensures var g := File(f, xs[|xs| - 1], group, t);
            forall i :: 0 <= i < |g.stage.rows| ==> FromBundle(xs, g.stage.rows[i], t)
  {
    var x := xs[|xs| - 1];
    var row := CategoryRow(New(f.stage.next), x.name, group);
    assert CategoryKey(x.global, x.name, group) !in t.categories ==> FromBundle(xs, row, t);
  }

  ghost predicate AtMostOneMore(groups: seq<GroupRow>, f: Filing, t: Target) {
    if f.groups == groups then f.fallback.Some? ==> "Imported" in t.ownGroups
    else f.fallback.Some? && "Imported" !in t.ownGroups && f.groups == groups + [GroupRow(f.fallback.value, "Imported")]
  }

  /** A category is inserted only for a bundle category the target lacks, and the
      only group added to the bundle's is one named "Imported", once, where the
      user has none. */
  lemma {:induction false} NothingMadeUp(xs: seq<BCategory>, groupIds: Ids, groups: seq<GroupRow>, t: Target, next: nat)
    ensures var f := Categories(xs, groupIds, groups, t, next);
            && (forall i :: 0 <= i < |f.stage.rows| ==> FromBundle(xs, f.stage.rows[i], t))
            && AtMostOneMore(groups, f, t)
  {
    if xs != [] {
      var init, x := xs[..|xs| - 1], xs[|xs| - 1];
      NothingMadeUp(init, groupIds, groups, t, next);
      var f := Categories(init, groupIds, groups, t, next);
      forall i | 0 <= i < |f.stage.rows|
        ensures FromBundle(xs, f.stage.rows[i], t)
      {
        FromMore(init, xs, f.stage.rows[i], t);
      }
      match GroupOf(x.group, groupIds, t)
      case Some(group) => FiledFromBundle(xs, f, group, t);
      case None =>
        var g := Fallback(f, t);
        FiledFromBundle(xs, g, g.fallback.value, t);
    }
  }

  // ----- payees

  predicate LinkedAs(p: Payee, name: string) {
    p.name == name && p.account.Some?
  }

  /** The first payee of a name that is linked to an account, and the first of the
      name when none is. */
  ghost predicate IsSurvivor(payees: seq<Payee>, name: string, i: nat) {
    && i < |payees| && payees[i].name == name
    && (payees[i].account.Some? ==> forall j :: 0 <= j < i ==> !LinkedAs(payees[j], name))
    && (payees[i].account == None ==>
         (forall j :: 0 <= j < |payees| ==> !LinkedAs(payees[j], name))
         && (forall j :: 0 <= j < i ==> payees[j].name != name))
  }

  lemma {:induction false} SurvivorIsFirst(payees: seq<Payee>, name: string)
    ensures Survivor(payees, name) == None ==> forall j :: 0 <= j < |payees| ==> payees[j].name != name
    ensures Survivor(payees, name).Some? ==>
              exists i: nat :: IsSurvivor(payees, name, i) && Survivor(payees, name) == Some(payees[i])
  {
    if payees != [] {
      var init, n := payees[..|payees| - 1], |payees| - 1;
      SurvivorIsFirst(init, name);
      assert forall j :: 0 <= j < n ==> init[j] == payees[j];
      if Survivor(init, name).Some? {
        var i: nat :| IsSurvivor(init, name, i) && Survivor(init, name) == Some(init[i]);
        assert Survivor(payees, name) == Some(payees[i]) ==> IsSurvivor(payees, name, i);
        assert Survivor(payees, name) != Some(payees[i]) ==> IsSurvivor(payees, name, n);
      } else {
        assert payees[n].name == name ==> IsSurvivor(payees, name, n);
      }
    }
  }

  /** A name told apart by the identifier: both shortened, and no longer than the
      column holds. */
  ghost predicate ToldApart(was: string, id: SrcId, now: string) {
    exists head: string, tail: string ::
      && now == head + " (" + tail + ")" && head <= was && tail <= id && |now| <= 255
      && (|was| <= 244 ==> head == was) && |tail| == if |id| < 8 then |id| else 8
  }

  /** What the row a payee ends up as is called: the payee's name, except that of
      several linked payees of one name only the first keeps it. */
  ghost predicate CalledAs(xs: seq<Payee>, i: nat, name: string)
    requires i < |xs|
  {
    if xs[i].account.Some? && exists j :: 0 <= j < i && LinkedAs(xs[j], xs[i].name)
    then ToldApart(xs[i].name, xs[i].id, name)
    else name == xs[i].name
  }

  lemma DisambiguatedIs(name: string, id: SrcId)
    ensures ToldApart(name, id, Disambiguated(name, id))
  {
    var head, tail := if |name| > 244 then name[..244] else name, if |id| > 8 then id[..8] else id;
    assert Disambiguated(name, id) == head + " (" + tail + ")";
  }

  /** The kept payee a bundle payee answers to. */
  ghost predicate AnswersTo(xs: seq<Payee>, i: nat, k: Payee)
    requires i < |xs|
  {
    && CalledAs(xs, i, k.name)
    && (xs[i].account.Some? ==> k.account == xs[i].account)
    && (xs[i].account == None ==> exists s: nat :: IsSurvivor(xs, xs[i].name, s) && k == xs[s])
  }

  lemma KeptAnswers(xs: seq<Payee>, i: nat)
    requires UniqueIds(xs) && i < |xs|
    ensures var fate := FateOf(xs, xs[i]);
            var s := Survivor(xs, xs[i].name);
            s.Some? && AnswersTo(xs, i, if fate.Keep? then fate.payee else s.value)
    ensures var fate := FateOf(xs, xs[i]); fate.Fold? ==> fate.into == Survivor(xs, xs[i].name).value.id
  {
    SurvivorIsFirst(xs, xs[i].name);
    var s: nat :| IsSurvivor(xs, xs[i].name, s) && Survivor(xs, xs[i].name) == Some(xs[s]);
    DisambiguatedIs(xs[i].name, xs[i].id);
    if s != i && xs[i].account.Some? {
      assert LinkedAs(xs[i], xs[i].name);
      assert LinkedAs(xs[s], xs[i].name);
    }
  }

  lemma {:induction false} KeptRow(kept: seq<Payee>, accounts: Ids, next: nat, k: nat)
    requires UniqueIds(kept) && k < |kept|
    ensures var s := PayeeRows(kept, accounts, next);
            && kept[k].id in s.ids && k < |s.rows|
            && s.rows[k] == PayeeRow(s.ids[kept[k].id], kept[k].name, MapRef(accounts, kept[k].account))
  {
    PayeeRowAccounts(kept, accounts, next);
    var init := kept[..|kept| - 1];
    PayeeRowAccounts(init, accounts, next);
    if k < |init| {
      assert forall j :: 0 <= j < |init| ==> init[j] == kept[j];
      KeptRow(init, accounts, next, k);
      assert kept[k].id != kept[|kept| - 1].id;
    }
  }

  /** The row a bundle payee's identifier leads to. */
  ghost predicate StandsForPayee(xs: seq<Payee>, i: nat, s: Stage<PayeeRow>, accounts: Ids)
    requires i < |xs|
  {
    && xs[i].id in s.ids
    && exists row: PayeeRow, k: Payee ::
         && row in s.rows && row.id == s.ids[xs[i].id] && AnswersTo(xs, i, k)
         && row.name == k.name && row.account == MapRef(accounts, k.account)
  }

  lemma FoldedApart(xs: seq<Payee>, k: Payee)
    requires UniqueIds(xs) && k in KeptOf(xs, |xs|)
    ensures k.id !in FoldedOf(xs, |xs|)
  {
    KeptMembers(xs, |xs|, k);
    var i :| 0 <= i < |xs| && FateOf(xs, xs[i]) == Keep(k);
    FoldedMembers(xs, |xs|);
    assert forall j :: 0 <= j < |xs| && xs[j].id == k.id ==> j == i;
  }

  lemma AnswerIsKept(xs: seq<Payee>, i: nat) returns (k: Payee)
    requires UniqueIds(xs) && i < |xs|
    ensures k in KeptOf(xs, |xs|) && AnswersTo(xs, i, k)
    ensures var folded := FoldedOf(xs, |xs|);
            if xs[i].id in folded then folded[xs[i].id] == k.id else k.id == xs[i].id
  {
    KeptAnswers(xs, i);
    FoldedMembers(xs, |xs|);
    var fate := FateOf(xs, xs[i]);
    if fate.Keep? {
      k := fate.payee;
      KeptMembers(xs, |xs|, k);
      FoldedApart(xs, k);
    } else {
      k := Survivor(xs, xs[i].name).value;
      SurvivorIsKept(xs, xs[i]);
    }
  }

  lemma {:induction false} PayeeKeys(kept: seq<Payee>, accounts: Ids, next: nat, id: SrcId)
    ensures id in PayeeRows(kept, accounts, next).ids <==> exists k :: k in kept && k.id == id
  {
    if kept != [] {
      PayeeKeys(kept[..|kept| - 1], accounts, next, id);
      assert kept == kept[..|kept| - 1] + [kept[|kept| - 1]];
    }
  }

  lemma FoldedKeysApart(xs: seq<Payee>, id: SrcId)
    requires UniqueIds(xs) && id in FoldedOf(xs, |xs|)
    ensures forall k :: k in KeptOf(xs, |xs|) ==> k.id != id
  {
    forall k | k in KeptOf(xs, |xs|)
      ensures k.id != id
    {
      FoldedApart(xs, k);
    }
  }

  /** Whatever refers to a bundle payee afterwards refers to one of its name, and
      to one of its account when it had any. */
  lemma PayeesKeepTheirMeaning(xs: seq<Payee>, accounts: Ids, next: nat, i: nat)
    requires UniqueIds(xs) && i < |xs|
    ensures StandsForPayee(xs, i, Payees(xs, accounts, next), accounts)
  {
    var kept := KeptOf(xs, |xs|);
    var k := AnswerIsKept(xs, i);
    KeptIds(xs, |xs|);
    var at :| 0 <= at < |kept| && kept[at] == k;
    KeptRow(kept, accounts, next, at);
    var s := Payees(xs, accounts, next);
    var inserted := PayeeRows(kept, accounts, next).ids;
    PayeeKeys(kept, accounts, next, xs[i].id);
    if xs[i].id in FoldedOf(xs, |xs|) {
      FoldedKeysApart(xs, xs[i].id);
    }
    assert s.rows[at].id == s.ids[xs[i].id];
  }
}
