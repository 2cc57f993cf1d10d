/** Merging a bundle's payees that share a name. */
module BackupPayees {
  import opened Options
  import opened Ordering

  type SrcId = string

  datatype Payee = Payee(id: SrcId, name: string, account: Option<SrcId>)

  // payees.name is VARCHAR(255) and the suffix takes 11 characters.
  const NAME_ROOM := 244

  function Disambiguated(name: string, id: SrcId): string {
    (if |name| > NAME_ROOM then name[..NAME_ROOM] else name) + " (" + (if |id| > 8 then id[..8] else id) + ")"
  }

  /** The payee a name survives as: the first linked to an account, else the first. */
  function Survivor(payees: seq<Payee>, name: string): Option<Payee> {
    if payees == [] then None
    else
      var before, last := Survivor(payees[..|payees| - 1], name), payees[|payees| - 1];
      if last.name != name then before
      else if before == None || (before.value.account == None && last.account.Some?) then Some(last)
      else before
  }

  datatype Fate = Keep(payee: Payee) | Fold(into: SrcId)

  /** What becomes of one payee. */
  function FateOf(payees: seq<Payee>, p: Payee): Fate {
    match Survivor(payees, p.name)
    case None => Keep(p)
    case Some(keep) =>
      if p.id == keep.id then Keep(p)
      else if p.account.Some? then Keep(p.(name := Disambiguated(p.name, p.id)))
      else Fold(keep.id)
  }

  function KeptOf(payees: seq<Payee>, n: nat): seq<Payee>
    requires n <= |payees|
  {
    if n == 0 then []
    else KeptOf(payees, n - 1) + (match FateOf(payees, payees[n - 1]) case Keep(p) => [p] case Fold(_) => [])
  }

  function FoldedOf(payees: seq<Payee>, n: nat): map<SrcId, SrcId>
    requires n <= |payees|
  {
    if n == 0 then map[]
    else match FateOf(payees, payees[n - 1])
      case Keep(_) => FoldedOf(payees, n - 1)
      case Fold(into) => FoldedOf(payees, n - 1)[payees[n - 1].id := into]
  }

  lemma {:induction false} SurvivorIs(payees: seq<Payee>, name: string)
    ensures var s := Survivor(payees, name);
            && (s.Some? ==> s.value in payees && s.value.name == name)
            && (s.Some? <==> exists p :: p in payees && p.name == name)
            && (s.Some? && s.value.account == None ==> forall p :: p in payees && p.name == name ==> p.account == None)
  {
    if payees != [] {
      SurvivorIs(payees[..|payees| - 1], name);
      assert payees == payees[..|payees| - 1] + [payees[|payees| - 1]];
    }
  }

  lemma SurvivorExists(payees: seq<Payee>, p: Payee)
    requires p in payees
    ensures Survivor(payees, p.name).Some?
  {
    SurvivorIs(payees, p.name);
  }

  method MergeBackupPayees(payees: seq<Payee>) returns (kept: seq<Payee>, folded: map<SrcId, SrcId>)
    ensures kept == KeptOf(payees, |payees|) && folded == FoldedOf(payees, |payees|)
  {
    var survivor: map<string, Payee> := map[];
    for i := 0 to |payees|
      invariant forall name :: (if name in survivor then Some(survivor[name]) else None) == Survivor(payees[..i], name)
    {
      var p := payees[i];
      assert payees[..i + 1][..i] == payees[..i];
      if p.name !in survivor || (survivor[p.name].account == None && p.account.Some?) {
        survivor := survivor[p.name := p];
      }
    }
    assert payees[..|payees|] == payees;
    kept, folded := [], map[];
    for i := 0 to |payees|
      invariant kept == KeptOf(payees, i) && folded == FoldedOf(payees, i)
    {
      var p := payees[i];
      SurvivorExists(payees, p);
      var keep := survivor[p.name];
      if p.id == keep.id {
        kept := kept + [p];
      } else if p.account.Some? {
        kept := kept + [p.(name := Disambiguated(p.name, p.id))];
      } else {
        folded := folded[p.id := keep.id];
      }
    }
  }

  // ----- what the merge keeps

  predicate UniqueIds(payees: seq<Payee>) {
    forall i, j :: 0 <= i < |payees| && 0 <= j < |payees| && payees[i].id == payees[j].id ==> i == j
  }

  lemma {:induction false} KeptMembers(payees: seq<Payee>, n: nat, k: Payee)
    requires n <= |payees|
    ensures k in KeptOf(payees, n) <==> exists i :: 0 <= i < n && FateOf(payees, payees[i]) == Keep(k)
  {
    if n > 0 {
      KeptMembers(payees, n - 1, k);
    }
  }

  lemma {:induction false} FoldedHas(payees: seq<Payee>, n: nat, i: nat)
    requires i < n <= |payees| && UniqueIds(payees) && FateOf(payees, payees[i]).Fold?
    ensures payees[i].id in FoldedOf(payees, n)
    ensures FoldedOf(payees, n)[payees[i].id] == FateOf(payees, payees[i]).into
  {
    if i < n - 1 {
      FoldedHas(payees, n - 1, i);
      assert payees[i].id != payees[n - 1].id;
    }
  }

  lemma {:induction false} FoldedFrom(payees: seq<Payee>, n: nat, id: SrcId)
    requires n <= |payees| && id in FoldedOf(payees, n)
    ensures exists i :: 0 <= i < n && payees[i].id == id && FateOf(payees, payees[i]).Fold?
  {
    if id in FoldedOf(payees, n - 1) {
      FoldedFrom(payees, n - 1, id);
    } else {
      assert payees[n - 1].id == id;
    }
  }

  lemma FoldedMembers(payees: seq<Payee>, n: nat)
    requires n <= |payees| && UniqueIds(payees)
    ensures forall id :: id in FoldedOf(payees, n) <==>
              exists i :: 0 <= i < n && payees[i].id == id && FateOf(payees, payees[i]).Fold?
    ensures forall i :: 0 <= i < n && FateOf(payees, payees[i]).Fold? ==>
              payees[i].id in FoldedOf(payees, n) && FoldedOf(payees, n)[payees[i].id] == FateOf(payees, payees[i]).into
  {
    forall i | 0 <= i < n && FateOf(payees, payees[i]).Fold?
      ensures payees[i].id in FoldedOf(payees, n)
      ensures FoldedOf(payees, n)[payees[i].id] == FateOf(payees, payees[i]).into
    {
      FoldedHas(payees, n, i);
    }
    forall id | id in FoldedOf(payees, n)
      ensures exists i :: 0 <= i < n && payees[i].id == id && FateOf(payees, payees[i]).Fold?
    {
      FoldedFrom(payees, n, id);
    }
  }

  predicate IsInto(p: Payee, kept: seq<Payee>, into: SrcId, q: Payee) {
    q in kept && q.name == p.name && q.id == into && q.id != p.id
  }

  /** Every payee is kept under its own id or folded into a kept one of the same
      name, and one linked to an account is never folded. */
  lemma NobodyIsLost(payees: seq<Payee>, p: Payee)
    requires UniqueIds(payees) && p in payees
    ensures var kept, folded := KeptOf(payees, |payees|), FoldedOf(payees, |payees|);
            if p.id in folded
            then p.account == None && exists q :: q in payees && IsInto(p, kept, folded[p.id], q)
            else exists k :: k in kept && k.id == p.id && k.account == p.account
  {
    var n := |payees|;
    var i :| 0 <= i < n && payees[i] == p;
    FoldedMembers(payees, n);
    SurvivorIs(payees, p.name);
    match FateOf(payees, p)
    case Keep(k) =>
      KeptMembers(payees, n, k);
      assert k in KeptOf(payees, n) && k.id == p.id && k.account == p.account;
    case Fold(into) =>
      var q := Survivor(payees, p.name).value;
      var j :| 0 <= j < n && payees[j] == q;
      assert FateOf(payees, payees[j]) == Keep(q);
      KeptMembers(payees, n, q);
  }

  // ----- one name each

  predicate Renamed(payees: seq<Payee>, p: Payee) {
    p in payees && p.account.Some? && Survivor(payees, p.name).Some? && Survivor(payees, p.name).value.id != p.id
  }

  predicate Clashes(payees: seq<Payee>, p: Payee, q: Payee) {
    Renamed(payees, p) && q in payees && q.id != p.id
    && (Disambiguated(p.name, p.id) == q.name
         || (Renamed(payees, q) && Disambiguated(p.name, p.id) == Disambiguated(q.name, q.id)))
  }

  /** A name given to tell payees apart is a name already in the bundle, or is
      given twice. */
  ghost predicate NameClash(payees: seq<Payee>) {
    exists p, q :: Clashes(payees, p, q)
  }

  ghost predicate OneNameEach(kept: seq<Payee>) {
    forall a, b :: a in kept && b in kept && a.name == b.name ==> a == b
  }

  lemma NoClashNoTwins(payees: seq<Payee>, a: Payee, b: Payee)
    requires UniqueIds(payees) && !NameClash(payees) && a.name == b.name
    requires a in KeptOf(payees, |payees|) && b in KeptOf(payees, |payees|)
    ensures a == b
  {
    KeptMembers(payees, |payees|, a);
    KeptMembers(payees, |payees|, b);
    var i :| 0 <= i < |payees| && FateOf(payees, payees[i]) == Keep(a);
    var j :| 0 <= j < |payees| && FateOf(payees, payees[j]) == Keep(b);
    var p, q := payees[i], payees[j];
    SurvivorIs(payees, p.name);
    SurvivorIs(payees, q.name);
    assert !Clashes(payees, p, q) && !Clashes(payees, q, p);
  }

  // The survivor of the made-up name is not the payee that was given it.
  lemma TwinIsAnother(payees: seq<Payee>, p: Payee)
    requires UniqueIds(payees) && Renamed(payees, p)
    requires var s := Survivor(payees, Disambiguated(p.name, p.id));
             s.Some? && s.value in payees && s.value.name == Disambiguated(p.name, p.id)
    ensures Survivor(payees, Disambiguated(p.name, p.id)).value.id != p.id
  {
    var s := Survivor(payees, Disambiguated(p.name, p.id)).value;
    var i :| 0 <= i < |payees| && payees[i] == p;
    var j :| 0 <= j < |payees| && payees[j] == s;
    assert p.name != s.name ==> i != j;
  }

  lemma RenamedIsKept(payees: seq<Payee>, p: Payee)
    requires Renamed(payees, p)
    ensures p.(name := Disambiguated(p.name, p.id)) in KeptOf(payees, |payees|)
  {
    var i :| 0 <= i < |payees| && payees[i] == p;
    assert FateOf(payees, payees[i]) == Keep(p.(name := Disambiguated(p.name, p.id)));
    KeptMembers(payees, |payees|, p.(name := Disambiguated(p.name, p.id)));
  }

  lemma SurvivorIsKept(payees: seq<Payee>, q: Payee)
    requires q in payees
    ensures Survivor(payees, q.name).Some? && Survivor(payees, q.name).value.name == q.name
    ensures Survivor(payees, q.name).value in KeptOf(payees, |payees|)
  {
    SurvivorIs(payees, q.name);
    var s := Survivor(payees, q.name).value;
    var j :| 0 <= j < |payees| && payees[j] == s;
    assert FateOf(payees, payees[j]) == Keep(s);
    KeptMembers(payees, |payees|, s);
  }

  lemma ClashMakesTwins(payees: seq<Payee>, p: Payee, q: Payee)
    requires UniqueIds(payees) && Clashes(payees, p, q)
    ensures !OneNameEach(KeptOf(payees, |payees|))
  {
    var a := p.(name := Disambiguated(p.name, p.id));
    RenamedIsKept(payees, p);
    if Disambiguated(p.name, p.id) == q.name {
      SurvivorIsKept(payees, q);
      SurvivorIs(payees, q.name);
      TwinIsAnother(payees, p);
    } else {
      RenamedIsKept(payees, q);
      assert a.id != q.id;
    }
  }

  /** The merged payees have one name each, as the unique index demands, exactly
      when no name made up by the merge clashes. */
  lemma MergedNamesAreUniqueExactlyWhen(payees: seq<Payee>)
    requires UniqueIds(payees)
    ensures OneNameEach(KeptOf(payees, |payees|)) <==> !NameClash(payees)
  {
    var kept := KeptOf(payees, |payees|);
    if !NameClash(payees) {
      forall a, b | a in kept && b in kept && a.name == b.name
        ensures a == b
      {
        NoClashNoTwins(payees, a, b);
      }
    } else {
      var p, q :| Clashes(payees, p, q);
      ClashMakesTwins(payees, p, q);
    }
  }

  /** Two linked payees and a manual one are enough: the second "Shop" is renamed
      to a name the third already has, and the insert fails. */
  lemma MadeUpNameCanBeTaken(a: Payee, b: Payee, c: Payee)
    requires a == Payee("11111111-a", "Shop", Some("x")) && b == Payee("22222222-b", "Shop", Some("y"))
    requires c == Payee("33333333-c", "Shop (22222222)", None)
    ensures UniqueIds([a, b, c]) && !OneNameEach(KeptOf([a, b, c], 3))
  {
    var payees := [a, b, c];
    assert payees[..2] == [a, b] && [a, b][..1] == [a] && [a][..0] == [];
    assert Survivor([], "Shop") == None;
    assert Survivor([a], "Shop") == Some(a);
    assert Survivor([a, b], "Shop") == Some(a);
    assert Survivor(payees, "Shop") == Some(a);
    assert Clashes(payees, b, c);
    MergedNamesAreUniqueExactlyWhen(payees);
  }
}
