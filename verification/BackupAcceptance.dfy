/** When the tables take a well-formed bundle: what a user can check of the
    bundle itself, before restoring it. */
module BackupAcceptance {
  import opened Options
  import opened BackupPayees
  import opened BackupRestore
  import opened BackupTheorems
  import opened BackupRenaming

  // ----- what the bundle has to satisfy

  /** No name made up by the merge clashes, none is taken on the target, and no
      account is linked to two payees. */
  ghost predicate PayeesAcceptable(xs: seq<Payee>, t: Target) {
    && !NameClash(xs)
    && (forall p :: p in xs ==> p.name !in t.payeeNames)
    && (forall p :: p in xs && Renamed(xs, p) ==> Disambiguated(p.name, p.id) !in t.payeeNames)
    && (forall i, j :: 0 <= i < j < |xs| && xs[i].account.Some? ==> xs[i].account != xs[j].account)
  }

  predicate CyclesAcceptable(xs: seq<BCycle>) {
    forall i, j :: 0 <= i < j < |xs| ==> (xs[i].account, xs[i].start) != (xs[j].account, xs[j].start)
  }

  predicate IsLoanAccount(accounts: seq<BAccount>, id: SrcId) {
    exists k :: 0 <= k < |accounts| && accounts[k].id == id && accounts[k].typ == "loan"
  }

  predicate TxnsAcceptable(xs: seq<BTxn>, accounts: seq<BAccount>) {
    forall i :: 0 <= i < |xs| ==> !IsLoanAccount(accounts, xs[i].account)
  }

  /** Each link is there once and ties two transactions; a transaction is attached
      to one loan, releases one loan and belongs to one series; a loan has one
      schedule, one transfer out, to another loan, and one release; a series has
      one term from a day. */
  predicate JoinsAcceptable(b: Bundle) {
    && (forall i, j :: 0 <= i < j < |b.links| ==>
          (b.links[i].tag, b.links[i].from, b.links[i].to) != (b.links[j].tag, b.links[j].from, b.links[j].to))
    && (forall i, j :: 0 <= i < j < |b.attachments| ==> b.attachments[i].to != b.attachments[j].to)
    && (forall i, j :: 0 <= i < j < |b.schedules| ==> b.schedules[i].from != b.schedules[j].from)
    && (forall i, j :: 0 <= i < j < |b.transfers| ==> b.transfers[i].from != b.transfers[j].from)
    && (forall i, j :: 0 <= i < j < |b.disbursements| ==> b.disbursements[i].from != b.disbursements[j].from)
    && (forall i, j :: 0 <= i < j < |b.disbursements| ==> b.disbursements[i].to != b.disbursements[j].to)
    && (forall i, j :: 0 <= i < j < |b.terms| ==>
          (b.terms[i].tag, b.terms[i].from) != (b.terms[j].tag, b.terms[j].from))
    && (forall i, j :: 0 <= i < j < |b.recurring| ==> b.recurring[i].to != b.recurring[j].to)
    && (forall i :: 0 <= i < |b.links| ==> b.links[i].to != Some(b.links[i].from))
    && (forall i :: 0 <= i < |b.transfers| ==> b.transfers[i].to != Some(b.transfers[i].from))
  }

  predicate AllFit(xs: seq<Join<SrcId>>) {
    forall i :: 0 <= i < |xs| ==> xs[i].fits
  }

  ghost predicate Acceptable(b: Bundle, t: Target) {
    && PayeesAcceptable(b.payees, t) && CyclesAcceptable(b.cycles) && TxnsAcceptable(b.txns, b.accounts)
    && JoinsAcceptable(b) && AllFit(b.links) && AllFit(b.attachments) && AllFit(b.schedules) && AllFit(b.transfers)
    && AllFit(b.disbursements) && AllFit(b.terms) && AllFit(b.recurring)
    && (forall i :: 0 <= i < |b.series| ==> b.series[i].fits)
  }

  lemma JoinsFitExactlyWhen(b: Bundle)
    ensures (JoinsFit(OnAll, true, b.links) && LoansFit(b.attachments, b.schedules, b.transfers, b.disbursements)
             && JoinsFit(OnTagAndFrom, false, b.terms) && JoinsFit(OnTo, false, b.recurring))
       <==> (JoinsAcceptable(b) && AllFit(b.links) && AllFit(b.attachments) && AllFit(b.schedules)
             && AllFit(b.transfers) && AllFit(b.disbursements) && AllFit(b.terms) && AllFit(b.recurring))
  {
  }

  // ----- joining rows

  lemma SameKeyInRows(u: Unique, x: Join<SrcId>, y: Join<SrcId>, a: Join<Ref>, b: Join<Ref>, from: Ids, to: Ids)
    requires IsJoinImage(x, a, from, to) && IsJoinImage(y, b, from, to) && Injective(from) && Injective(to)
    ensures SameKey(u, x, y) <==> SameKey(u, a, b)
  {
    assert x.from == y.from <==> a.from == b.from;
    assert x.to == y.to <==> a.to == b.to;
  }

  lemma JoinsFitInRows(u: Unique, apart: bool, xs: seq<Join<SrcId>>, s: Stage<JoinRow>, from: Ids, to: Ids)
    requires JoinsKept(xs, s, from, to) && Injective(from) && Injective(to) && (apart ==> from == to)
    ensures JoinsFit(u, apart, JoinsOf(s.rows)) <==> JoinsFit(u, apart, xs)
  {
    var js := JoinsOf(s.rows);
    forall i, j | 0 <= i < j < |xs|
      ensures SameKey(u, xs[i], xs[j]) <==> SameKey(u, js[i], js[j])
    {
      SameKeyInRows(u, xs[i], xs[j], js[i], js[j], from, to);
    }
    forall i | 0 <= i < |xs|
      ensures js[i].fits == xs[i].fits && (apart ==> (js[i].to == Some(js[i].from) <==> xs[i].to == Some(xs[i].from)))
    {
      assert IsJoinImage(xs[i], js[i], from, to);
    }
  }

  lemma LoansFitInRows(b: Bundle, o: Restored)
    requires LoansKept(b, o.loans, o.early.accounts.ids, o.txns.ids) && OneToOne(o)
    ensures LoansFit(JoinsOf(o.loans.attachments.rows), JoinsOf(o.loans.schedules.rows),
                     JoinsOf(o.loans.transfers.rows), JoinsOf(o.loans.disbursements.rows))
       <==> LoansFit(b.attachments, b.schedules, b.transfers, b.disbursements)
  {
    var accounts, txns := o.early.accounts.ids, o.txns.ids;
    JoinsFitInRows(OnTo, false, b.attachments, o.loans.attachments, accounts, txns);
    JoinsFitInRows(OnFrom, false, b.schedules, o.loans.schedules, accounts, accounts);
    JoinsFitInRows(OnFrom, true, b.transfers, o.loans.transfers, accounts, accounts);
    JoinsFitInRows(OnEach, false, b.disbursements, o.loans.disbursements, accounts, txns);
  }

  // ----- cycles and transactions

  lemma CyclesFitInRows(xs: seq<BCycle>, s: Stage<CycleRow>, accounts: Ids)
    requires CyclesKept(xs, s, accounts) && Injective(accounts)
    ensures CyclesFit(s.rows) <==> CyclesAcceptable(xs)
  {
    forall i, j | 0 <= i < j < |xs|
      ensures (xs[i].account, xs[i].start) == (xs[j].account, xs[j].start)
         <==> (s.rows[i].account, s.rows[i].start) == (s.rows[j].account, s.rows[j].start)
    {
      assert xs[i].account == xs[j].account <==> s.rows[i].account == s.rows[j].account;
    }
  }

  lemma LoanInRows(xs: seq<BAccount>, s: Stage<AccountRow>, id: SrcId)
    requires Kept(xs, AccountSrc, s, AccountId) && Injective(s.ids) && id in s.ids
    requires forall i :: 0 <= i < |xs| ==> s.rows[i].typ == xs[i].typ
    ensures IsLoan(s.rows, s.ids[id]) <==> IsLoanAccount(xs, id)
  {
    if IsLoanAccount(xs, id) {
      var k :| 0 <= k < |xs| && xs[k].id == id && xs[k].typ == "loan";
      assert s.ids[AccountSrc(xs[k])] == AccountId(s.rows[k]);
    }
    if IsLoan(s.rows, s.ids[id]) {
      var k :| 0 <= k < |s.rows| && s.rows[k].id == s.ids[id] && s.rows[k].typ == "loan";
      assert s.ids[AccountSrc(xs[k])] == AccountId(s.rows[k]);
      assert xs[k].id == id;
    }
  }

  lemma TxnsFitInRows(b: Bundle, o: Restored)
    requires EarlyKept(b, o.early) && TxnsKept(b.txns, o.txns, ResolvedBy(o.early, o.cycles)) && OneToOne(o)
    ensures TxnsFit(o.txns.rows, o.early.accounts.rows) <==> TxnsAcceptable(b.txns, b.accounts)
  {
    forall i | 0 <= i < |b.txns|
      ensures IsLoan(o.early.accounts.rows, o.txns.rows[i].account) <==> IsLoanAccount(b.accounts, b.txns[i].account)
    {
      assert TxnImage(b.txns[i], o.txns.rows[i], ResolvedBy(o.early, o.cycles));
      LoanInRows(b.accounts, o.early.accounts, b.txns[i].account);
    }
  }

  // ----- payees

  /** The payees the merge keeps, as the payee table sees them. */
  predicate KeptFit(kept: seq<Payee>, t: Target) {
    && (forall i :: 0 <= i < |kept| ==> kept[i].name !in t.payeeNames)
    && (forall i, j :: 0 <= i < j < |kept| ==> kept[i].name != kept[j].name)
    && (forall i, j :: 0 <= i < j < |kept| && kept[i].account.Some? ==> kept[i].account != kept[j].account)
  }

  lemma PayeesFitInRows(kept: seq<Payee>, rows: seq<PayeeRow>, accounts: Ids, t: Target)
    requires PayeesKept(kept, rows, accounts) && Injective(accounts)
    ensures PayeesFit(rows, t) <==> KeptFit(kept, t)
  {
    forall i, j | 0 <= i < j < |kept|
      ensures kept[i].account == kept[j].account <==> rows[i].account == rows[j].account
    {
      assert IsImage(accounts, kept[i].account, rows[i].account) && IsImage(accounts, kept[j].account, rows[j].account);
    }
    assert forall i :: 0 <= i < |kept| ==> IsImage(accounts, kept[i].account, rows[i].account);
  }

  lemma OneMoreKept(xs: seq<Payee>, n: nat, before: seq<Payee>)
    requires 1 <= n <= |xs| && UniqueIds(xs) && UniqueIds(before)
    requires forall k :: k in before ==> exists i :: 0 <= i < n - 1 && xs[i].id == k.id && xs[i].account == k.account
    ensures forall p: Payee :: p.id == xs[n - 1].id ==> UniqueIds(before + [p])
  {
    assert forall k :: k in before ==> k.id != xs[n - 1].id;
    assert forall i :: 0 <= i < |before| ==> before[i] in before;
  }

  lemma {:induction false} KeptIds(xs: seq<Payee>, n: nat)
    requires n <= |xs| && UniqueIds(xs)
    ensures UniqueIds(KeptOf(xs, n))
    ensures forall k :: k in KeptOf(xs, n) ==> exists i :: 0 <= i < n && xs[i].id == k.id && xs[i].account == k.account
  {
    if n > 0 {
      KeptIds(xs, n - 1);
      OneMoreKept(xs, n, KeptOf(xs, n - 1));
    }
  }

  lemma NamesByPlace(kept: seq<Payee>)
    requires UniqueIds(kept)
    ensures OneNameEach(kept) <==> forall i, j :: 0 <= i < j < |kept| ==> kept[i].name != kept[j].name
  {
    if OneNameEach(kept) {
      assert forall i, j :: 0 <= i < j < |kept| && kept[i].name == kept[j].name ==> kept[i] == kept[j];
    }
  }

  // A payee linked to an account is always kept.
  lemma LinkedIsKept(xs: seq<Payee>, i: nat) returns (k: nat)
    requires UniqueIds(xs) && i < |xs| && xs[i].account.Some?
    ensures k < |KeptOf(xs, |xs|)| && KeptOf(xs, |xs|)[k].id == xs[i].id && KeptOf(xs, |xs|)[k].account == xs[i].account
  {
    var kept := KeptOf(xs, |xs|);
    NobodyIsLost(xs, xs[i]);
    var p :| p in kept && p.id == xs[i].id && p.account == xs[i].account;
    k :| 0 <= k < |kept| && kept[k] == p;
  }

  lemma LinksByPlace(xs: seq<Payee>)
    requires UniqueIds(xs)
    ensures (forall i, j :: 0 <= i < j < |xs| && xs[i].account.Some? ==> xs[i].account != xs[j].account)
       <==> (var kept := KeptOf(xs, |xs|);
             forall i, j :: 0 <= i < j < |kept| && kept[i].account.Some? ==> kept[i].account != kept[j].account)
  {
    var kept := KeptOf(xs, |xs|);
    KeptIds(xs, |xs|);
    if i, j :| 0 <= i < j < |xs| && xs[i].account.Some? && xs[i].account == xs[j].account {
      var a := LinkedIsKept(xs, i);
      var b := LinkedIsKept(xs, j);
      assert a != b && kept[a].account == kept[b].account;
    }
    if a, b :| 0 <= a < b < |kept| && kept[a].account.Some? && kept[a].account == kept[b].account {
      assert kept[a] in kept && kept[b] in kept;
      var i :| 0 <= i < |xs| && xs[i].id == kept[a].id && xs[i].account == kept[a].account;
      var j :| 0 <= j < |xs| && xs[j].id == kept[b].id && xs[j].account == kept[b].account;
      assert i != j;
      assert i < j || j < i;
    }
  }

  // The names kept are the bundle's own and those the merge makes up.
  ghost predicate Named(xs: seq<Payee>, p: Payee, name: string) {
    p in xs && (p.name == name || (Renamed(xs, p) && Disambiguated(p.name, p.id) == name))
  }

  lemma KeptIsNamed(xs: seq<Payee>, k: Payee)
    requires k in KeptOf(xs, |xs|)
    ensures exists p :: Named(xs, p, k.name)
  {
    KeptMembers(xs, |xs|, k);
    var i :| 0 <= i < |xs| && FateOf(xs, xs[i]) == Keep(k);
    SurvivorIs(xs, xs[i].name);
    assert Named(xs, xs[i], k.name);
  }

  lemma NamedIsKept(xs: seq<Payee>, p: Payee, name: string)
    requires Named(xs, p, name)
    ensures exists i :: 0 <= i < |KeptOf(xs, |xs|)| && KeptOf(xs, |xs|)[i].name == name
  {
    SurvivorIs(xs, p.name);
    var s := if p.name == name then Survivor(xs, name).value else p;
    var i :| 0 <= i < |xs| && xs[i] == s;
    var k := if p.name == name then s else p.(name := name);
    assert FateOf(xs, xs[i]) == Keep(k);
    KeptMembers(xs, |xs|, k);
    var j :| 0 <= j < |KeptOf(xs, |xs|)| && KeptOf(xs, |xs|)[j] == k;
  }

  lemma FreeNames(xs: seq<Payee>, t: Target)
    ensures (forall i :: 0 <= i < |KeptOf(xs, |xs|)| ==> KeptOf(xs, |xs|)[i].name !in t.payeeNames)
       <==> && (forall p :: p in xs ==> p.name !in t.payeeNames)
            && (forall p :: p in xs && Renamed(xs, p) ==> Disambiguated(p.name, p.id) !in t.payeeNames)
  {
    var kept := KeptOf(xs, |xs|);
    if i :| 0 <= i < |kept| && kept[i].name in t.payeeNames {
      assert kept[i] in kept;
      KeptIsNamed(xs, kept[i]);
    }
    if p :| p in xs && p.name in t.payeeNames {
      NamedIsKept(xs, p, p.name);
    }
    if p :| p in xs && Renamed(xs, p) && Disambiguated(p.name, p.id) in t.payeeNames {
      NamedIsKept(xs, p, Disambiguated(p.name, p.id));
    }
  }

  lemma PayeesFitExactlyWhen(xs: seq<Payee>, t: Target)
    requires UniqueIds(xs)
    ensures KeptFit(KeptOf(xs, |xs|), t) <==> PayeesAcceptable(xs, t)
  {
    var kept := KeptOf(xs, |xs|);
    KeptIds(xs, |xs|);
    NamesByPlace(kept);
    MergedNamesAreUniqueExactlyWhen(xs);
    LinksByPlace(xs);
    FreeNames(xs, t);
  }

  // ----- the whole bundle

  lemma StorableExactlyWhen(b: Bundle, t: Target, o: Restored)
    requires UniqueIds(b.payees) && BundleKept(b, o) && OneToOne(o)
    ensures Storable(o, t) <==> Acceptable(b, t)
  {
    JoinsFitExactlyWhen(b);
    PayeesFitInRows(KeptOf(b.payees, |b.payees|), o.early.payees.rows, o.early.accounts.ids, t);
    PayeesFitExactlyWhen(b.payees, t);
    CyclesFitInRows(b.cycles, o.cycles, o.early.accounts.ids);
    TxnsFitInRows(b, o);
    JoinsFitInRows(OnAll, true, b.links, o.links, o.txns.ids, o.txns.ids);
    LoansFitInRows(b, o);
    JoinsFitInRows(OnTagAndFrom, false, b.terms, o.recurring.terms, o.recurring.series.ids, o.early.accounts.ids);
    JoinsFitInRows(OnTo, false, b.recurring, o.recurring.attachments, o.recurring.series.ids, o.txns.ids);
  }

  lemma RowsDecide(b: Bundle, t: Target, o: Restored)
    requires RowsFrom(b, EarlyOf(b, t)) == Some(o)
    ensures Restore(b, t).Done? <==> t.accounts == 0 && TypesKnown(b, t) && Storable(o, t)
    ensures t.accounts == 0 && TypesKnown(b, t) && !Storable(o, t) ==> Restore(b, t) == Refused
  {
  }

  lemma BuiltRowsAreOneToOne(b: Bundle, t: Target, o: Restored)
    requires TargetOk(t) && RowsAre(b, EarlyOf(b, t), o) && BundleKept(b, o)
    ensures OneToOne(o)
  {
    EarlyBacked(b, t);
    RowsAreOneToOne(b, t, EarlyOf(b, t), o);
  }

  /** A well-formed bundle is accepted exactly when the ledger is empty, the
      server has its account types, and the bundle itself keeps the tables'
      uniqueness and checks; the renaming never causes a refusal. */
  lemma AcceptedExactlyWhen(b: Bundle, t: Target)
    requires WellFormed(b) && TargetOk(t)
    ensures Restore(b, t).Done? <==>
              t.accounts == 0 && (forall a :: a in b.accounts ==> a.typ in t.types) && Acceptable(b, t)
    ensures t.accounts == 0 && (forall a :: a in b.accounts ==> a.typ in t.types) && !Acceptable(b, t) ==>
              Restore(b, t) == Refused
  {
    assert TypesKnown(b, t) <==> forall a :: a in b.accounts ==> a.typ in t.types;
    var o := RowsAreBuilt(b, t);
    RowsDecide(b, t, o);
    BuiltRowsAreOneToOne(b, t, o);
    StorableExactlyWhen(b, t, o);
  }

  // Two accounts and some payees, nothing else.
  function TwoAccounts(payees: seq<Payee>): Bundle {
    var accounts := [BAccount("x", "bank", false), BAccount("y", "bank", false)];
    Bundle(accounts, [], [], payees, [], [], [], [], [], [], [], [], [], [], [])
  }

  lemma TwoAccountsAreDistinct()
    ensures var accounts := TwoAccounts([]).accounts;
            DistinctBy(accounts, AccountSrc) && {"x", "y"} <= Sources(accounts, AccountSrc)
  {
    var accounts := TwoAccounts([]).accounts;
    assert AccountSrc(accounts[0]) == "x" && AccountSrc(accounts[1]) == "y";
    assert "x"[0] != "y"[0];
  }

  lemma TwoAccountsWellFormed(payees: seq<Payee>)
    requires UniqueIds(payees)
    requires forall k :: 0 <= k < |payees| ==> payees[k].account in {None, Some("x"), Some("y")}
    ensures WellFormed(TwoAccounts(payees))
  {
    TwoAccountsAreDistinct();
    assert TwoAccounts(payees).accounts == TwoAccounts([]).accounts;
  }

  /** Two accounts of one name, their linked payees and a manual payee called
      what the merge would call the second: a bundle with every reference in
      order that the payee index refuses. */
  lemma MadeUpNameRefusesTheBundle(t: Target) returns (b: Bundle)
    requires TargetOk(t) && t.accounts == 0 && "bank" in t.types
    ensures WellFormed(b) && Restore(b, t) == Refused
  {
    var p := Payee("11111111-a", "Shop", Some("x"));
    var q := Payee("22222222-b", "Shop", Some("y"));
    var r := Payee("33333333-c", "Shop (22222222)", None);
    b := TwoAccounts([p, q, r]);
    MadeUpNameCanBeTaken(p, q, r);
    MergedNamesAreUniqueExactlyWhen([p, q, r]);
    TwoAccountsWellFormed([p, q, r]);
    assert NameClash(b.payees);
    AcceptedExactlyWhen(b, t);
  }
}
