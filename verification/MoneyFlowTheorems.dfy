/** What the money-flow graph conserves. */
module MoneyFlowTheorems {
  import opened Ordering
  import opened Currency
  import opened AccountGraph
  import opened FlowTheorems
  import opened FlowRanking
  import opened FlowSums
  import opened Sums
  import opened MoneyFlow

  // ----- what the queries deliver

  function SpendByCategory(rows: seq<SpendRow>): seq<Entry<string>> {
    seq(|rows|, i requires 0 <= i < |rows| => Entry(CategoryId(rows[i].cat), One(rows[i].currency, rows[i].total)))
  }

  ghost function SpentOn(x: Inputs, id: string, code: string): int {
    EntrySum(SpendByCategory(x.spend), Is(id), code)
  }

  ghost function PaidFor(x: Inputs, id: string, code: string): int {
    EntrySum(CategoryEntries(x.paid), Is(id), code)
  }

  /** Both debit queries group the same transactions, so each category's money is
      the same in both. */
  ghost predicate SameDebits(x: Inputs) {
    forall id, code :: SpentOn(x, id, code) == PaidFor(x, id, code)
  }

  /** Amounts are never negative and identifiers are not the word the rolled-up
      nodes are named by (they are UUID text, or empty for none). */
  ghost predicate Sound(x: Inputs) {
    && (forall r :: r in x.income ==> r.total >= 0 && r.cat != "other")
    && (forall r :: r in x.spend ==> r.total >= 0 && r.cat != "other")
    && (forall r :: r in x.paid ==> r.total >= 0 && r.cat != "other" && r.payee != "other")
    && (forall e, code :: e in x.edges ==> Get(e.value, code) >= 0)
    && SameDebits(x)
  }

  // ----- sums over what is rendered

  function NodeSum(nodes: seq<Node>, code: string): int {
    if nodes == [] then 0 else NodeSum(nodes[..|nodes| - 1], code) + Get(nodes[|nodes| - 1].total, code)
  }

  function LinkSum(links: seq<Link>, p: Pair -> bool, code: string): int {
    if links == [] then 0
    else
      var last := links[|links| - 1];
      LinkSum(links[..|links| - 1], p, code) + if p(last.pair) then Get(last.value, code) else 0
  }

  ghost function From(id: string): Pair -> bool { (p: Pair) => p.src == id }

  ghost function Into(id: string): Pair -> bool { (p: Pair) => p.dst == id }

  // ----- one stage

  /** The contributions a rendered node stands for. */
  ghost function Under(kept: set<string>, other: string, node: string): string -> bool {
    id => Rollup(id, kept, other) == node
  }

  lemma {:induction false} NodeSumIsSetSum(m: map<string, Amounts>, ids: seq<string>, s: set<string>, code: string)
    requires Distinct(ids) && (forall id :: id in ids <==> id in s) && s <= m.Keys
    ensures NodeSum(NodesOf(m, ids), code) == SumOver(s, Held(m, code))
  {
    if ids == [] {
      assert s == {};
    } else {
      var n := |ids| - 1;
      var rest := s - {ids[n]};
      forall id
        ensures id in ids[..n] <==> id in rest
      {
        assert id in ids[..n] ==> id in ids;
        if id in rest {
          var k :| 0 <= k < |ids| && ids[k] == id;
        }
      }
      NodeSumIsSetSum(m, ids[..n], rest, code);
      assert NodesOf(m, ids)[..n] == NodesOf(m, ids[..n]);
      SumRemove(s, Held(m, code), ids[n]);
    }
  }

  lemma OtherHolds(m: map<string, Amounts>, tail: set<string>, code: string)
    requires tail <= m.Keys
    ensures Get(OtherTotal(m, tail), code) == SumOver(tail, Held(m, code))
  {
    if code !in CodesOf(m, tail) {
      forall id | id in tail
        ensures Held(m, code)(id) == 0
      {
        assert code in m[id] && m[id][code] != 0 ==> code in CodesOf(m, tail);
      }
      SumZero(tail, Held(m, code));
    }
  }

  ghost predicate IsKeptOrOther(m: map<string, Amounts>, kept: set<string>, other: string, n: Node)
    requires kept <= m.Keys
  {
    || (n.id in kept && n.total == m[n.id])
    || (n.id == other && other != "" && kept != m.Keys && n.total == OtherTotal(m, m.Keys - kept))
  }

  lemma StageShape(m: map<string, Amounts>, kept: set<string>, other: string) returns (ids: seq<string>)
    requires kept <= m.Keys
    ensures Distinct(ids) && (forall id :: id in ids <==> id in kept)
    ensures Stage(m, kept, other) == NodesOf(m, ids) + OtherNode(m, kept, other)
  {
    RankedNodesSpec(Restrict(m, kept));
    ids := RankedNodes(Restrict(m, kept));
    assert Restrict(m, kept).Keys == kept;
  }

  lemma SubsetSize(a: set<string>, b: set<string>)
    requires a <= b
    ensures |a| < |b| <==> a != b
    ensures |a| <= |b|
  {
    assert b == a + (b - a);
    if a != b {
      assert b - a != {};
    }
  }

  lemma OtherIsThere(m: map<string, Amounts>, kept: set<string>, other: string)
    requires kept <= m.Keys
    ensures OtherNode(m, kept, other) ==
              if other != "" && kept != m.Keys then [Node(other, OtherTotal(m, m.Keys - kept))] else []
  {
    SubsetSize(kept, m.Keys);
    assert |m| == |m.Keys|;
  }

  lemma ListedNodes(m: map<string, Amounts>, kept: set<string>, other: string, ids: seq<string>)
    requires kept <= m.Keys && other !in m && Distinct(ids) && forall id :: id in ids <==> id in kept
    ensures var listed := NodesOf(m, ids);
            && (forall n :: n in listed ==> n.id in kept && n.total == m[n.id] && n.id != other)
            && (forall id :: id in kept ==> Node(id, m[id]) in listed)
            && (forall i, j :: 0 <= i < j < |listed| ==> listed[i].id != listed[j].id)
  {
    var listed := NodesOf(m, ids);
    forall id | id in kept
      ensures Node(id, m[id]) in listed
    {
      assert id in ids;
      var k :| 0 <= k < |ids| && ids[k] == id;
      assert listed[k] == Node(id, m[id]);
    }
    forall i | 0 <= i < |ids|
      ensures listed[i].id in kept
    {
      assert ids[i] in ids;
    }
  }

  /** A capped stage is its kept nodes and, only when some are left, the Other
      node, with every id once. */
  lemma StageNodes(m: map<string, Amounts>, kept: set<string>, other: string)
    requires kept <= m.Keys && other !in m
    ensures var nodes := Stage(m, kept, other);
            && (forall n :: n in nodes ==> IsKeptOrOther(m, kept, other, n))
            && (forall id :: id in kept ==> Node(id, m[id]) in nodes)
            && (other != "" && kept != m.Keys ==> Node(other, OtherTotal(m, m.Keys - kept)) in nodes)
            && (forall i, j :: 0 <= i < j < |nodes| ==> nodes[i].id != nodes[j].id)
  {
    var ids := StageShape(m, kept, other);
    OtherIsThere(m, kept, other);
    ListedNodes(m, kept, other, ids);
  }

  lemma KeptHolds(entries: seq<Entry<string>>, kept: set<string>, other: string, id: string, code: string)
    requires id in kept && kept <= Totals(entries).Keys && other !in Totals(entries)
    ensures Get(Totals(entries)[id], code) == EntrySum(entries, Under(kept, other, id), code)
  {
    TotalIsSum(entries, id, code);
    SameSelection(entries, Is(id), entries, Under(kept, other, id), code);
  }

  lemma OtherIsTheRest(entries: seq<Entry<string>>, kept: set<string>, other: string, code: string)
    requires kept <= Totals(entries).Keys && other !in Totals(entries)
    ensures Get(OtherTotal(Totals(entries), Totals(entries).Keys - kept), code)
              == EntrySum(entries, Under(kept, other, other), code)
  {
    var tail := Totals(entries).Keys - kept;
    OtherHolds(Totals(entries), tail, code);
    GroupSum(entries, tail, code);
    TotalsKeys(entries);
    SameSelection(entries, k => k in tail, entries, Under(kept, other, other), code);
  }

  /** A rendered node holds exactly the contributions that roll up into it. */
  lemma NodeHoldsItsContributions(entries: seq<Entry<string>>, kept: set<string>, other: string, n: Node, code: string)
    requires kept <= Totals(entries).Keys && other !in Totals(entries) && n in Stage(Totals(entries), kept, other)
    ensures Get(n.total, code) == EntrySum(entries, Under(kept, other, n.id), code)
  {
    StageNodes(Totals(entries), kept, other);
    assert IsKeptOrOther(Totals(entries), kept, other, n);
    if n.id in kept {
      KeptHolds(entries, kept, other, n.id, code);
    } else {
      OtherIsTheRest(entries, kept, other, code);
    }
  }

  lemma OtherNodeSum(m: map<string, Amounts>, kept: set<string>, other: string, code: string)
    requires kept <= m.Keys && other != ""
    ensures NodeSum(OtherNode(m, kept, other), code) == SumOver(m.Keys - kept, Held(m, code))
  {
    OtherIsThere(m, kept, other);
    OtherHolds(m, m.Keys - kept, code);
    var nodes := OtherNode(m, kept, other);
    if nodes == [] {
      assert m.Keys - kept == {};
    } else {
      assert nodes[..|nodes| - 1] == [];
    }
  }

  lemma {:induction false} NodeSumOfBoth(a: seq<Node>, b: seq<Node>, code: string)
    ensures NodeSum(a + b, code) == NodeSum(a, code) + NodeSum(b, code)
  {
    if b == [] {
      assert a + b == a;
    } else {
      assert (a + b)[..|a + b| - 1] == a + b[..|b| - 1];
      NodeSumOfBoth(a, b[..|b| - 1], code);
    }
  }

  /** Kept and rolled-up nodes together hold what the whole stage holds. */
  lemma StageSum(m: map<string, Amounts>, kept: set<string>, other: string, code: string)
    requires kept <= m.Keys && other != ""
    ensures NodeSum(Stage(m, kept, other), code) == SumOver(m.Keys, Held(m, code))
  {
    var ids := StageShape(m, kept, other);
    NodeSumIsSetSum(m, ids, kept, code);
    NodeSumOfBoth(NodesOf(m, ids), OtherNode(m, kept, other), code);
    OtherNodeSum(m, kept, other, code);
    SumUnion(kept, m.Keys - kept, Held(m, code));
    assert kept + (m.Keys - kept) == m.Keys;
  }

  lemma EverythingHeld(entries: seq<Entry<string>>, code: string)
    ensures SumOver(Totals(entries).Keys, Held(Totals(entries), code)) == EntrySum(entries, k => true, code)
  {
    var keys := Totals(entries).Keys;
    GroupSum(entries, keys, code);
    TotalsKeys(entries);
    SameSelection(entries, k => k in keys, entries, k => true, code);
  }

  /** A capped stage conserves its rows: its nodes, Other included, add up to
      every contribution, in each currency. */
  lemma StageConserves(entries: seq<Entry<string>>, kept: set<string>, other: string, code: string)
    requires kept <= Totals(entries).Keys && other != ""
    ensures NodeSum(Stage(Totals(entries), kept, other), code) == EntrySum(entries, k => true, code)
  {
    StageSum(Totals(entries), kept, other, code);
    EverythingHeld(entries, code);
  }

  // ----- the links

  ghost function Selected(keys: seq<Pair>, p: Pair -> bool): set<Pair> {
    set k | k in keys && p(k)
  }

  lemma OneMoreSelected(keys: seq<Pair>, p: Pair -> bool)
    requires keys != [] && Distinct(keys)
    ensures var n := |keys| - 1;
            Selected(keys, p) == (if p(keys[n]) then Selected(keys[..n], p) + {keys[n]} else Selected(keys[..n], p))
            && keys[n] !in Selected(keys[..n], p)
  {
    assert keys == keys[..|keys| - 1] + [keys[|keys| - 1]];
  }

  lemma {:induction false} LinkSumIsSetSum(m: map<Pair, Amounts>, keys: seq<Pair>, p: Pair -> bool, code: string)
    requires Distinct(keys) && forall k :: k in keys ==> k in m
    ensures LinkSum(LinksOver(m, keys), p, code) == SumOver(Selected(keys, p), Held(m, code))
  {
    if keys == [] {
      assert Selected(keys, p) == {};
    } else {
      var n := |keys| - 1;
      LinkSumIsSetSum(m, keys[..n], p, code);
      assert LinksOver(m, keys)[..n] == LinksOver(m, keys[..n]);
      OneMoreSelected(keys, p);
      if p(keys[n]) {
        SumAdd(Selected(keys[..n], p), Held(m, code), keys[n]);
      }
    }
  }

  /** The drawn links carry exactly the contributions made to them. */
  lemma LinksCarryContributions(entries: seq<Entry<Pair>>, p: Pair -> bool, code: string)
    requires NonNegative(entries)
    ensures LinkSum(LinksOf(Totals(Drawable(entries))), p, code) == EntrySum(entries, p, code)
  {
    var drawn := Drawable(entries);
    var m := Totals(drawn);
    PairOrder();
    SortSetSpec(PairLe, m.Keys);
    var keys := SortSet(PairLe, m.Keys);
    LinkSumIsSetSum(m, keys, p, code);
    var s := Selected(keys, p);
    GroupSum(drawn, s, code);
    TotalsKeys(drawn);
    SameSelection(drawn, k => k in s, drawn, p, code);
    DrawableSum(entries, p, code);
    assert LinksOf(m) == LinksOver(m, keys);
  }

  // ----- sums over the four groups of edges

  lemma EdgeGroups(x: Inputs, k: Kept, p: Pair -> bool, code: string)
    ensures EntrySum(EdgeEntries(x, k), p, code)
         == EntrySum(IncomeEdges(x.income, k), p, code) + EntrySum(SpendEdges(x.spend, k), p, code)
          + EntrySum(PaidEdges(x.paid, k), p, code) + EntrySum(AcctEdges(x.edges), p, code)
  {
    SumOfBoth(IncomeEdges(x.income, k) + SpendEdges(x.spend, k) + PaidEdges(x.paid, k), AcctEdges(x.edges), p, code);
    SumOfBoth(IncomeEdges(x.income, k) + SpendEdges(x.spend, k), PaidEdges(x.paid, k), p, code);
    SumOfBoth(IncomeEdges(x.income, k), SpendEdges(x.spend, k), p, code);
  }

  lemma ContributionsNonNegative(x: Inputs, k: Kept)
    requires Sound(x)
    ensures NonNegative(EdgeEntries(x, k))
  {
    var all := EdgeEntries(x, k);
    forall i, code | 0 <= i < |all|
      ensures Get(all[i].value, code) >= 0
    {
      var a, b, c := |x.income|, |x.income| + |x.spend|, |x.income| + |x.spend| + |x.paid|;
      if i < a {
        assert all[i] == IncomeEdges(x.income, k)[i] && x.income[i] in x.income;
      } else if i < b {
        assert all[i] == SpendEdges(x.spend, k)[i - a] && x.spend[i - a] in x.spend;
      } else if i < c {
        assert all[i] == PaidEdges(x.paid, k)[i - b] && x.paid[i - b] in x.paid;
      } else {
        assert all[i] == AcctEdges(x.edges)[i - c] && x.edges[i - c] in x.edges;
      }
    }
  }

  predicate OfStage(id: string, letter: char) {
    id != "" && id[0] == letter
  }

  lemma NoIdIsOther(id: string)
    requires id != "other"
    ensures IncomeId(id) != OTHER_INCOME && CategoryId(id) != OTHER_CATEGORY && PayeeId(id) != OTHER_PAYEE
  {
    assert ("income:" + id)[7..] == id && OTHER_INCOME[7..] == "other";
    assert ("category:" + id)[9..] == id && OTHER_CATEGORY[9..] == "other";
    assert ("payee:" + id)[6..] == id && OTHER_PAYEE[6..] == "other";
  }

  // ----- the stages' ids

  lemma IncomeKeys(x: Inputs)
    requires Sound(x)
    ensures KeptOf(x).income <= Totals(IncomeEntries(x.income)).Keys && OTHER_INCOME !in Totals(IncomeEntries(x.income))
    ensures forall id :: id in Totals(IncomeEntries(x.income)) ==> OfStage(id, 'i')
  {
    KeepTopKeepsTheLargest(Totals(IncomeEntries(x.income)), x.limit);
    TotalsKeys(IncomeEntries(x.income));
    forall i | 0 <= i < |x.income|
      ensures OfStage(IncomeId(x.income[i].cat), 'i') && IncomeId(x.income[i].cat) != OTHER_INCOME
    {
      assert x.income[i] in x.income;
      NoIdIsOther(x.income[i].cat);
    }
  }

  lemma CategoryKeys(x: Inputs)
    requires Sound(x)
    ensures KeptOf(x).category <= Totals(CategoryEntries(x.paid)).Keys
    ensures OTHER_CATEGORY !in Totals(CategoryEntries(x.paid))
    ensures forall id :: id in Totals(CategoryEntries(x.paid)) ==> OfStage(id, 'c')
  {
    KeepTopKeepsTheLargest(Totals(CategoryEntries(x.paid)), x.limit);
    TotalsKeys(CategoryEntries(x.paid));
    forall i | 0 <= i < |x.paid|
      ensures OfStage(CategoryId(x.paid[i].cat), 'c') && CategoryId(x.paid[i].cat) != OTHER_CATEGORY
    {
      assert x.paid[i] in x.paid;
      NoIdIsOther(x.paid[i].cat);
    }
  }

  lemma PayeeKeys(x: Inputs)
    requires Sound(x)
    ensures KeptOf(x).payee <= Totals(PayeeEntries(x.paid)).Keys && OTHER_PAYEE !in Totals(PayeeEntries(x.paid))
    ensures forall id :: id in Totals(PayeeEntries(x.paid)) ==> OfStage(id, 'p')
  {
    KeepTopKeepsTheLargest(Totals(PayeeEntries(x.paid)), x.limit);
    TotalsKeys(PayeeEntries(x.paid));
    forall i | 0 <= i < |x.paid|
      ensures OfStage(PayeeId(x.paid[i].payee), 'p') && PayeeId(x.paid[i].payee) != OTHER_PAYEE
    {
      assert x.paid[i] in x.paid;
      NoIdIsOther(x.paid[i].payee);
    }
  }

  lemma AcctKeys(x: Inputs)
    ensures "" !in AcctNodes(x) && forall id :: id in AcctNodes(x) ==> OfStage(id, 'a')
  {
  }

  // ----- each node against its edges

  /** Every edge of a group leaves one stage for another. */
  ghost predicate Between(entries: seq<Entry<Pair>>, from: char, to: char) {
    forall i :: 0 <= i < |entries| ==> OfStage(entries[i].key.src, from) && OfStage(entries[i].key.dst, to)
  }

  lemma NoneFrom(entries: seq<Entry<Pair>>, from: char, to: char, id: string, letter: char, code: string)
    requires Between(entries, from, to) && OfStage(id, letter) && letter != from
    ensures EntrySum(entries, From(id), code) == 0
  {
    NoneSelected(entries, From(id), code);
  }

  lemma NoneInto(entries: seq<Entry<Pair>>, from: char, to: char, id: string, letter: char, code: string)
    requires Between(entries, from, to) && OfStage(id, letter) && letter != to
    ensures EntrySum(entries, Into(id), code) == 0
  {
    NoneSelected(entries, Into(id), code);
  }

  /** Kept ids are ids of their own stage. */
  ghost predicate RolledWithin(k: Kept) {
    && (forall id :: id in k.income ==> OfStage(id, 'i'))
    && (forall id :: id in k.category ==> OfStage(id, 'c'))
    && (forall id :: id in k.payee ==> OfStage(id, 'p'))
  }

  lemma EdgesBetween(x: Inputs, k: Kept)
    requires RolledWithin(k)
    ensures Between(IncomeEdges(x.income, k), 'i', 'a') && Between(SpendEdges(x.spend, k), 'a', 'c')
    ensures Between(AcctEdges(x.edges), 'a', 'a')
  {
  }

  lemma PaidBetween(x: Inputs, k: Kept)
    requires RolledWithin(k)
    ensures Between(PaidEdges(x.paid, k), 'c', 'p')
  {
  }

  lemma KeptWithin(x: Inputs)
    requires Sound(x)
    ensures RolledWithin(KeptOf(x))
  {
    IncomeKeys(x);
    CategoryKeys(x);
    PayeeKeys(x);
  }

  lemma IncomeOut(x: Inputs, k: Kept, id: string, code: string)
    requires Sound(x) && k == KeptOf(x) && OfStage(id, 'i')
    ensures EntrySum(EdgeEntries(x, k), From(id), code)
              == EntrySum(IncomeEntries(x.income), Under(k.income, OTHER_INCOME, id), code)
  {
    KeptWithin(x);
    EdgesBetween(x, k);
    PaidBetween(x, k);
    EdgeGroups(x, k, From(id), code);
    SameSelection(IncomeEntries(x.income), Under(k.income, OTHER_INCOME, id), IncomeEdges(x.income, k), From(id), code);
    NoneFrom(SpendEdges(x.spend, k), 'a', 'c', id, 'i', code);
    NoneFrom(PaidEdges(x.paid, k), 'c', 'p', id, 'i', code);
    NoneFrom(AcctEdges(x.edges), 'a', 'a', id, 'i', code);
  }

  /** An income node holds what its edges carry away. */
  lemma IncomeNodeIsItsEdges(x: Inputs, n: Node, code: string)
    requires Sound(x) && n in IncomeStage(x)
    ensures Get(n.total, code) == LinkSum(LinksDrawn(x), From(n.id), code)
    ensures OfStage(n.id, 'i')
  {
    var k := KeptOf(x);
    IncomeKeys(x);
    NodeHoldsItsContributions(IncomeEntries(x.income), k.income, OTHER_INCOME, n, code);
    StageNodes(Totals(IncomeEntries(x.income)), k.income, OTHER_INCOME);
    ContributionsNonNegative(x, k);
    LinksCarryContributions(EdgeEntries(x, k), From(n.id), code);
    IncomeOut(x, k, n.id, code);
  }

  lemma PayeeIn(x: Inputs, k: Kept, id: string, code: string)
    requires Sound(x) && k == KeptOf(x) && OfStage(id, 'p')
    ensures EntrySum(EdgeEntries(x, k), Into(id), code)
              == EntrySum(PayeeEntries(x.paid), Under(k.payee, OTHER_PAYEE, id), code)
  {
    KeptWithin(x);
    EdgesBetween(x, k);
    EdgeGroups(x, k, Into(id), code);
    SameSelection(PayeeEntries(x.paid), Under(k.payee, OTHER_PAYEE, id), PaidEdges(x.paid, k), Into(id), code);
    NoneInto(IncomeEdges(x.income, k), 'i', 'a', id, 'p', code);
    NoneInto(SpendEdges(x.spend, k), 'a', 'c', id, 'p', code);
    NoneInto(AcctEdges(x.edges), 'a', 'a', id, 'p', code);
  }

  /** A payee node holds what its edges bring in. */
  lemma PayeeNodeIsItsEdges(x: Inputs, n: Node, code: string)
    requires Sound(x) && n in PayeeStage(x)
    ensures Get(n.total, code) == LinkSum(LinksDrawn(x), Into(n.id), code)
    ensures OfStage(n.id, 'p')
  {
    var k := KeptOf(x);
    PayeeKeys(x);
    NodeHoldsItsContributions(PayeeEntries(x.paid), k.payee, OTHER_PAYEE, n, code);
    StageNodes(Totals(PayeeEntries(x.paid)), k.payee, OTHER_PAYEE);
    ContributionsNonNegative(x, k);
    LinksCarryContributions(EdgeEntries(x, k), Into(n.id), code);
    PayeeIn(x, k, n.id, code);
  }

  // Contributions selected by a predicate, key by key.
  lemma SumByKey(entries: seq<Entry<string>>, s: set<string>, code: string, f: string -> int)
    requires forall k :: k in s ==> f(k) == EntrySum(entries, Is(k), code)
    ensures SumOver(s, f) == EntrySum(entries, k => k in s, code)
  {
    GroupSum(entries, s, code);
    forall k | k in s
      ensures f(k) == Held(Totals(entries), code)(k)
    {
      TotalIsSum(entries, k, code);
    }
    SumSame(s, f, Held(Totals(entries), code));
  }

  /** What the spending query puts under a rolled-up category is what the paying
      query puts there. */
  lemma SpentIsPaid(x: Inputs, p: string -> bool, code: string)
    requires SameDebits(x)
    ensures EntrySum(SpendByCategory(x.spend), p, code) == EntrySum(CategoryEntries(x.paid), p, code)
  {
    var spent, paid := SpendByCategory(x.spend), CategoryEntries(x.paid);
    TotalsKeys(spent);
    TotalsKeys(paid);
    var all := Totals(spent).Keys + Totals(paid).Keys;
    var s := set k | k in all && p(k);
    var f := (k: string) => SpentOn(x, k, code);
    assert forall k :: SpentOn(x, k, code) == PaidFor(x, k, code);
    SumByKey(spent, s, code, f);
    SumByKey(paid, s, code, f);
    SameSelection(spent, k => k in s, spent, p, code);
    SameSelection(paid, k => k in s, paid, p, code);
  }

  lemma CategoryOut(x: Inputs, k: Kept, id: string, code: string)
    requires Sound(x) && k == KeptOf(x) && OfStage(id, 'c')
    ensures EntrySum(EdgeEntries(x, k), From(id), code)
              == EntrySum(CategoryEntries(x.paid), Under(k.category, OTHER_CATEGORY, id), code)
  {
    KeptWithin(x);
    EdgesBetween(x, k);
    EdgeGroups(x, k, From(id), code);
    SameSelection(CategoryEntries(x.paid), Under(k.category, OTHER_CATEGORY, id), PaidEdges(x.paid, k), From(id), code);
    NoneFrom(IncomeEdges(x.income, k), 'i', 'a', id, 'c', code);
    NoneFrom(SpendEdges(x.spend, k), 'a', 'c', id, 'c', code);
    NoneFrom(AcctEdges(x.edges), 'a', 'a', id, 'c', code);
  }

  lemma SpendIntoCategory(x: Inputs, k: Kept, id: string, code: string)
    requires SameDebits(x)
    ensures EntrySum(SpendEdges(x.spend, k), Into(id), code)
              == EntrySum(CategoryEntries(x.paid), Under(k.category, OTHER_CATEGORY, id), code)
  {
    SameSelection(SpendByCategory(x.spend), Under(k.category, OTHER_CATEGORY, id), SpendEdges(x.spend, k), Into(id),
        code);
    SpentIsPaid(x, Under(k.category, OTHER_CATEGORY, id), code);
  }

  lemma CategoryIn(x: Inputs, k: Kept, id: string, code: string)
    requires Sound(x) && k == KeptOf(x) && OfStage(id, 'c')
    ensures EntrySum(EdgeEntries(x, k), Into(id), code)
              == EntrySum(CategoryEntries(x.paid), Under(k.category, OTHER_CATEGORY, id), code)
  {
    KeptWithin(x);
    EdgesBetween(x, k);
    PaidBetween(x, k);
    EdgeGroups(x, k, Into(id), code);
    SpendIntoCategory(x, k, id, code);
    NoneInto(IncomeEdges(x.income, k), 'i', 'a', id, 'c', code);
    NoneInto(PaidEdges(x.paid, k), 'c', 'p', id, 'c', code);
    NoneInto(AcctEdges(x.edges), 'a', 'a', id, 'c', code);
  }

  /** A category node holds what its edges bring in and what they carry away. */
  lemma CategoryNodeIsItsEdges(x: Inputs, n: Node, code: string)
    requires Sound(x) && n in CategoryStage(x)
    ensures Get(n.total, code) == LinkSum(LinksDrawn(x), From(n.id), code)
    ensures Get(n.total, code) == LinkSum(LinksDrawn(x), Into(n.id), code)
    ensures OfStage(n.id, 'c')
  {
    var k := KeptOf(x);
    CategoryKeys(x);
    NodeHoldsItsContributions(CategoryEntries(x.paid), k.category, OTHER_CATEGORY, n, code);
    StageNodes(Totals(CategoryEntries(x.paid)), k.category, OTHER_CATEGORY);
    ContributionsNonNegative(x, k);
    LinksCarryContributions(EdgeEntries(x, k), From(n.id), code);
    LinksCarryContributions(EdgeEntries(x, k), Into(n.id), code);
    CategoryOut(x, k, n.id, code);
    CategoryIn(x, k, n.id, code);
  }

  lemma EarnedAndArriving(x: Inputs, k: Kept, id: string, code: string)
    ensures EntrySum(EarnedEntries(x.income), Is(id), code) == EntrySum(IncomeEdges(x.income, k), Into(id), code)
    ensures EntrySum(ArrivingEntries(x.edges), Is(id), code) == EntrySum(AcctEdges(x.edges), Into(id), code)
  {
    SameSelection(EarnedEntries(x.income), Is(id), IncomeEdges(x.income, k), Into(id), code);
    SameSelection(ArrivingEntries(x.edges), Is(id), AcctEdges(x.edges), Into(id), code);
  }

  lemma AccountIn(x: Inputs, k: Kept, id: string, code: string)
    requires Sound(x) && k == KeptOf(x) && OfStage(id, 'a')
    ensures EntrySum(EdgeEntries(x, k), Into(id), code) == Get(At(Totals(AcctIn(x)), id), code)
  {
    KeptWithin(x);
    EdgesBetween(x, k);
    PaidBetween(x, k);
    EdgeGroups(x, k, Into(id), code);
    TotalIsSum(AcctIn(x), id, code);
    SumOfBoth(EarnedEntries(x.income), ArrivingEntries(x.edges), Is(id), code);
    EarnedAndArriving(x, k, id, code);
    NoneInto(SpendEdges(x.spend, k), 'a', 'c', id, 'a', code);
    NoneInto(PaidEdges(x.paid, k), 'c', 'p', id, 'a', code);
  }

  lemma SpentAndLeaving(x: Inputs, k: Kept, id: string, code: string)
    ensures EntrySum(SpentEntries(x.spend), Is(id), code) == EntrySum(SpendEdges(x.spend, k), From(id), code)
    ensures EntrySum(LeavingEntries(x.edges), Is(id), code) == EntrySum(AcctEdges(x.edges), From(id), code)
  {
    SameSelection(SpentEntries(x.spend), Is(id), SpendEdges(x.spend, k), From(id), code);
    SameSelection(LeavingEntries(x.edges), Is(id), AcctEdges(x.edges), From(id), code);
  }

  lemma AccountOut(x: Inputs, k: Kept, id: string, code: string)
    requires Sound(x) && k == KeptOf(x) && OfStage(id, 'a')
    ensures EntrySum(EdgeEntries(x, k), From(id), code) == Get(At(Totals(AcctOut(x)), id), code)
  {
    KeptWithin(x);
    EdgesBetween(x, k);
    PaidBetween(x, k);
    EdgeGroups(x, k, From(id), code);
    TotalIsSum(AcctOut(x), id, code);
    SumOfBoth(SpentEntries(x.spend), LeavingEntries(x.edges), Is(id), code);
    SpentAndLeaving(x, k, id, code);
    NoneFrom(IncomeEdges(x.income, k), 'i', 'a', id, 'a', code);
    NoneFrom(PaidEdges(x.paid, k), 'c', 'p', id, 'a', code);
  }

  /** An account node holds the larger of what its edges bring in and what they
      carry away, in each currency. */
  lemma AccountNodeIsTheLarger(x: Inputs, n: Node, code: string)
    requires Sound(x) && n in AcctStage(x)
    ensures var flowIn, flowOut := LinkSum(LinksDrawn(x), Into(n.id), code), LinkSum(LinksDrawn(x), From(n.id), code);
            Get(n.total, code) == if flowIn >= flowOut then flowIn else flowOut
    ensures OfStage(n.id, 'a')
  {
    var k := KeptOf(x);
    AcctKeys(x);
    StageNodes(AcctNodes(x), AcctNodes(x).Keys, "");
    ContributionsNonNegative(x, k);
    LinksCarryContributions(EdgeEntries(x, k), From(n.id), code);
    LinksCarryContributions(EdgeEntries(x, k), Into(n.id), code);
    AccountIn(x, k, n.id, code);
    AccountOut(x, k, n.id, code);
    SumNonNegative(EdgeEntries(x, k), From(n.id), code);
    SumNonNegative(EdgeEntries(x, k), Into(n.id), code);
  }
}
