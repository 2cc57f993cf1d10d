/** The shape of the money-flow graph: every edge has its nodes, no node is
    listed twice, and no money goes round in a circle. */
module MoneyFlowShape {
  import opened Options
  import opened Ordering
  import opened Currency
  import opened AccountGraph
  import opened FlowTheorems
  import opened FlowRanking
  import opened FlowSums
  import opened MoneyFlow
  import opened MoneyFlowTheorems

  predicate HasNode(nodes: seq<Node>, id: string) {
    exists k :: 0 <= k < |nodes| && nodes[k].id == id
  }

  // ----- where a link comes from

  lemma LinkOrigin(x: Inputs, l: Link) returns (i: nat, code: string)
    requires l in LinksDrawn(x)
    ensures i < |EdgeEntries(x, KeptOf(x))| && EdgeEntries(x, KeptOf(x))[i].key == l.pair
    ensures Get(EdgeEntries(x, KeptOf(x))[i].value, code) > 0
  {
    var entries := EdgeEntries(x, KeptOf(x));
    var m := Totals(Drawable(entries));
    PairOrder();
    SortSetSpec(PairLe, m.Keys);
    var keys := SortSet(PairLe, m.Keys);
    var k :| 0 <= k < |LinksDrawn(x)| && LinksDrawn(x)[k] == l;
    assert keys[k] == l.pair && keys[k] in keys;
    TotalsKeys(Drawable(entries));
    DrawableKeys(entries, l.pair);
    i, code :| 0 <= i < |entries| && entries[i].key == l.pair && Get(entries[i].value, code) > 0;
  }

  datatype Origin = FromIncome(row: nat) | FromSpend(row: nat) | FromPaid(row: nat) | FromAccounts(row: nat)

  /** What row of what query an edge draws; a spend row draws only what it
      holds. */
  ghost predicate Draws(x: Inputs, l: Link, o: Origin) {
    var k := KeptOf(x);
    match o
    case FromIncome(i) => i < |x.income| && l.pair == IncomeEdges(x.income, k)[i].key
    case FromSpend(i) => i < |x.spend| && l.pair == SpendEdges(x.spend, k)[i].key && x.spend[i].total > 0
    case FromPaid(i) => i < |x.paid| && l.pair == PaidEdges(x.paid, k)[i].key
    case FromAccounts(i) => i < |x.edges| && l.pair == AcctEdges(x.edges)[i].key
  }

  lemma OneOfFour<T>(a: seq<T>, b: seq<T>, c: seq<T>, d: seq<T>, i: nat)
    requires i < |a + b + c + d|
    ensures var all := a + b + c + d;
            if i < |a| then all[i] == a[i]
            else if i < |a| + |b| then all[i] == b[i - |a|]
            else if i < |a| + |b| + |c| then all[i] == c[i - |a| - |b|]
            else all[i] == d[i - |a| - |b| - |c|]
  {
  }

  lemma SomeRowDraws(x: Inputs, l: Link) returns (o: Origin)
    requires l in LinksDrawn(x)
    ensures Draws(x, l, o)
  {
    var i, code := LinkOrigin(x, l);
    var k := KeptOf(x);
    OneOfFour(IncomeEdges(x.income, k), SpendEdges(x.spend, k), PaidEdges(x.paid, k), AcctEdges(x.edges), i);
    o := if i < |x.income| then FromIncome(i)
         else if i < |x.income| + |x.spend| then FromSpend(i - |x.income|)
         else if i < |x.income| + |x.spend| + |x.paid| then FromPaid(i - |x.income| - |x.spend|)
         else FromAccounts(i - |x.income| - |x.spend| - |x.paid|);
    assert o.FromSpend? ==> Get(SpendEdges(x.spend, k)[o.row].value, code) > 0;
  }

  // ----- endpoints

  lemma StageHas(m: map<string, Amounts>, kept: set<string>, other: string, id: string)
    requires kept <= m.Keys && other !in m && id in m && (other != "" || id in kept)
    ensures HasNode(Stage(m, kept, other), Rollup(id, kept, other))
  {
    StageNodes(m, kept, other);
    var nodes := Stage(m, kept, other);
    if id in kept {
      assert Node(id, m[id]) in nodes;
    } else {
      assert Node(other, OtherTotal(m, m.Keys - kept)) in nodes;
    }
  }

  lemma HasInFour(a: seq<Node>, b: seq<Node>, c: seq<Node>, d: seq<Node>, id: string)
    requires HasNode(a, id) || HasNode(b, id) || HasNode(c, id) || HasNode(d, id)
    ensures HasNode(a + b + c + d, id)
  {
    var all := a + b + c + d;
    if HasNode(a, id) {
      var k :| 0 <= k < |a| && a[k].id == id;
      assert all[k].id == id;
    } else if HasNode(b, id) {
      var k :| 0 <= k < |b| && b[k].id == id;
      assert all[|a| + k].id == id;
    } else if HasNode(c, id) {
      var k :| 0 <= k < |c| && c[k].id == id;
      assert all[|a| + |b| + k].id == id;
    } else {
      var k :| 0 <= k < |d| && d[k].id == id;
      assert all[|a| + |b| + |c| + k].id == id;
    }
  }

  ghost predicate InSomeStage(x: Inputs, id: string) {
    HasNode(IncomeStage(x), id) || HasNode(AcctStage(x), id) || HasNode(CategoryStage(x), id)
        || HasNode(PayeeStage(x), id)
  }

  lemma AcctHas(x: Inputs, id: string)
    requires id in AcctIds(x)
    ensures HasNode(AcctStage(x), id)
  {
    AcctKeys(x);
    StageHas(AcctNodes(x), AcctNodes(x).Keys, "", id);
  }

  lemma CategoryHas(x: Inputs, cat: string)
    requires Sound(x) && CategoryId(cat) in Totals(CategoryEntries(x.paid))
    ensures HasNode(CategoryStage(x), Rollup(CategoryId(cat), KeptOf(x).category, OTHER_CATEGORY))
  {
    CategoryKeys(x);
    StageHas(Totals(CategoryEntries(x.paid)), KeptOf(x).category, OTHER_CATEGORY, CategoryId(cat));
  }

  // A category with spending has a paying row, since both see the same debits.
  lemma SpentCategoryIsPaid(x: Inputs, i: nat)
    requires Sound(x) && i < |x.spend| && x.spend[i].total > 0
    ensures CategoryId(x.spend[i].cat) in Totals(CategoryEntries(x.paid))
  {
    var r := x.spend[i];
    var id := CategoryId(r.cat);
    var spent, paid := SpendByCategory(x.spend), CategoryEntries(x.paid);
    forall j, code | 0 <= j < |spent|
      ensures Get(spent[j].value, code) >= 0
    {
      assert x.spend[j] in x.spend;
    }
    forall j, code | 0 <= j < |paid|
      ensures Get(paid[j].value, code) >= 0
    {
      assert x.paid[j] in x.paid;
    }
    assert r in x.spend && Get(spent[i].value, r.currency) == r.total;
    SumNonNegative(spent, Is(id), r.currency);
    assert SpentOn(x, id, r.currency) == PaidFor(x, id, r.currency);
    SumNonNegative(paid, Is(id), r.currency);
    TotalsKeys(paid);
  }

  lemma IncomeEnds(x: Inputs, i: nat)
    requires Sound(x) && i < |x.income|
    ensures InSomeStage(x, IncomeEdges(x.income, KeptOf(x))[i].key.src)
    ensures InSomeStage(x, IncomeEdges(x.income, KeptOf(x))[i].key.dst)
  {
    IncomeKeys(x);
    TotalsKeys(IncomeEntries(x.income));
    assert IncomeEntries(x.income)[i].key == IncomeId(x.income[i].cat) && x.income[i] in x.income;
    StageHas(Totals(IncomeEntries(x.income)), KeptOf(x).income, OTHER_INCOME, IncomeId(x.income[i].cat));
    AcctHas(x, AcctId(x.income[i].acct));
  }

  lemma SpendEnds(x: Inputs, i: nat)
    requires Sound(x) && i < |x.spend| && x.spend[i].total > 0
    ensures InSomeStage(x, SpendEdges(x.spend, KeptOf(x))[i].key.src)
    ensures InSomeStage(x, SpendEdges(x.spend, KeptOf(x))[i].key.dst)
  {
    assert x.spend[i] in x.spend;
    AcctHas(x, AcctId(x.spend[i].acct));
    SpentCategoryIsPaid(x, i);
    CategoryHas(x, x.spend[i].cat);
  }

  lemma AcctEnds(x: Inputs, i: nat)
    requires i < |x.edges|
    ensures InSomeStage(x, AcctEdges(x.edges)[i].key.src) && InSomeStage(x, AcctEdges(x.edges)[i].key.dst)
  {
    assert x.edges[i] in x.edges;
    AcctHas(x, AcctId(x.edges[i].pair.src));
    AcctHas(x, AcctId(x.edges[i].pair.dst));
  }

  lemma PaidEnds(x: Inputs, i: nat)
    requires Sound(x) && i < |x.paid|
    ensures HasNode(CategoryStage(x), Rollup(CategoryId(x.paid[i].cat), KeptOf(x).category, OTHER_CATEGORY))
    ensures HasNode(PayeeStage(x), Rollup(PayeeId(x.paid[i].payee), KeptOf(x).payee, OTHER_PAYEE))
  {
    TotalsKeys(CategoryEntries(x.paid));
    TotalsKeys(PayeeEntries(x.paid));
    assert CategoryEntries(x.paid)[i].key == CategoryId(x.paid[i].cat);
    assert PayeeEntries(x.paid)[i].key == PayeeId(x.paid[i].payee);
    CategoryHas(x, x.paid[i].cat);
    PayeeKeys(x);
    StageHas(Totals(PayeeEntries(x.paid)), KeptOf(x).payee, OTHER_PAYEE, PayeeId(x.paid[i].payee));
  }

  lemma RowEnds(x: Inputs, l: Link, o: Origin)
    requires Sound(x) && Draws(x, l, o)
    ensures InSomeStage(x, l.pair.src) && InSomeStage(x, l.pair.dst)
  {
    match o {
      case FromIncome(i) => IncomeEnds(x, i);
      case FromSpend(i) => SpendEnds(x, i);
      case FromPaid(i) => PaidEnds(x, i);
      case FromAccounts(i) => AcctEnds(x, i);
    }
  }

  lemma StagesAreInGraph(x: Inputs, id: string)
    requires InSomeStage(x, id)
    ensures HasNode(GraphOf(x).nodes, id)
  {
    HasInFour(IncomeStage(x), AcctStage(x), CategoryStage(x), PayeeStage(x), id);
  }

  /** Both ends of every edge are nodes of the graph. */
  lemma EveryEdgeHasItsNodes(x: Inputs, l: Link)
    requires Sound(x) && l in GraphOf(x).links
    ensures HasNode(GraphOf(x).nodes, l.pair.src) && HasNode(GraphOf(x).nodes, l.pair.dst)
  {
    var o := SomeRowDraws(x, l);
    RowEnds(x, l, o);
    StagesAreInGraph(x, l.pair.src);
    StagesAreInGraph(x, l.pair.dst);
  }

  // ----- no id twice

  predicate AllOfStage(nodes: seq<Node>, letter: char) {
    forall k :: 0 <= k < |nodes| ==> OfStage(nodes[k].id, letter)
  }

  predicate UniqueIds(nodes: seq<Node>) {
    forall i, j :: 0 <= i < j < |nodes| ==> nodes[i].id != nodes[j].id
  }

  lemma StageApart(m: map<string, Amounts>, kept: set<string>, other: string, letter: char)
    requires kept <= m.Keys && other !in m && (forall id :: id in m ==> OfStage(id, letter))
    requires (other == "" || OfStage(other, letter))
    ensures AllOfStage(Stage(m, kept, other), letter) && UniqueIds(Stage(m, kept, other))
  {
    StageNodes(m, kept, other);
    var nodes := Stage(m, kept, other);
    forall k | 0 <= k < |nodes|
      ensures OfStage(nodes[k].id, letter)
    {
      assert nodes[k] in nodes;
    }
  }

  lemma StagesAreApart(x: Inputs)
    requires Sound(x)
    ensures AllOfStage(IncomeStage(x), 'i') && AllOfStage(AcctStage(x), 'a') && AllOfStage(CategoryStage(x), 'c')
    ensures AllOfStage(PayeeStage(x), 'p')
    ensures UniqueIds(IncomeStage(x)) && UniqueIds(AcctStage(x)) && UniqueIds(CategoryStage(x))
    ensures UniqueIds(PayeeStage(x))
  {
    IncomeKeys(x);
    AcctKeys(x);
    CategoryKeys(x);
    PayeeKeys(x);
    StageApart(Totals(IncomeEntries(x.income)), KeptOf(x).income, OTHER_INCOME, 'i');
    StageApart(AcctNodes(x), AcctNodes(x).Keys, "", 'a');
    StageApart(Totals(CategoryEntries(x.paid)), KeptOf(x).category, OTHER_CATEGORY, 'c');
    StageApart(Totals(PayeeEntries(x.paid)), KeptOf(x).payee, OTHER_PAYEE, 'p');
  }

  lemma JoinStages(a: seq<Node>, b: seq<Node>)
    requires UniqueIds(a) && UniqueIds(b)
    requires forall i, j :: 0 <= i < |a| && 0 <= j < |b| ==> a[i].id != b[j].id
    ensures UniqueIds(a + b)
  {
  }

  /** No node of the graph is listed twice. */
  lemma NoNodeTwice(x: Inputs)
    requires Sound(x)
    ensures UniqueIds(GraphOf(x).nodes)
  {
    StagesAreApart(x);
    var a, b, c, d := IncomeStage(x), AcctStage(x), CategoryStage(x), PayeeStage(x);
    JoinStages(a, b);
    forall i, j | 0 <= i < |a + b| && 0 <= j < |c|
      ensures (a + b)[i].id != c[j].id
    {
      assert OfStage((a + b)[i].id, 'i') || OfStage((a + b)[i].id, 'a');
    }
    JoinStages(a + b, c);
    forall i, j | 0 <= i < |a + b + c| && 0 <= j < |d|
      ensures (a + b + c)[i].id != d[j].id
    {
      assert OfStage((a + b + c)[i].id, 'i') || OfStage((a + b + c)[i].id, 'a') || OfStage((a + b + c)[i].id, 'c');
    }
    JoinStages(a + b + c, d);
  }

  // ----- no circles

  function Level(id: string): nat {
    if OfStage(id, 'i') then 0 else if OfStage(id, 'a') then 1 else if OfStage(id, 'c') then 2 else 3
  }

  ghost function LinkPairs(links: seq<Link>): set<Pair> {
    set l | l in links :: l.pair
  }

  function Stripped(id: string): AccountId {
    if |id| >= 8 then id[8..] else ""
  }

  lemma StrippedIsAccount(id: AccountId)
    ensures Stripped(AcctId(id)) == id
  {
  }

  ghost predicate Forward(edges: seq<FlowEdge>, p: Pair) {
    Level(p.src) < Level(p.dst)
        || (Level(p.src) == Level(p.dst) == 1 && Pair(Stripped(p.src), Stripped(p.dst)) in DrawnPairs(edges))
  }

  lemma RolledLevel(id: string, kept: set<string>, other: string, letter: char)
    requires OfStage(id, letter) && OfStage(other, letter)
    ensures OfStage(Rollup(id, kept, other), letter)
  {
  }

  lemma RowsGoForward(x: Inputs, k: Kept)
    ensures forall i :: 0 <= i < |x.income| ==> Forward(x.edges, IncomeEdges(x.income, k)[i].key)
    ensures forall i :: 0 <= i < |x.spend| ==> Forward(x.edges, SpendEdges(x.spend, k)[i].key)
    ensures forall i :: 0 <= i < |x.paid| ==> Forward(x.edges, PaidEdges(x.paid, k)[i].key)
  {
    forall i | 0 <= i < |x.income|
      ensures Forward(x.edges, IncomeEdges(x.income, k)[i].key)
    {
      RolledLevel(IncomeId(x.income[i].cat), k.income, OTHER_INCOME, 'i');
    }
    forall i | 0 <= i < |x.spend|
      ensures Forward(x.edges, SpendEdges(x.spend, k)[i].key)
    {
      RolledLevel(CategoryId(x.spend[i].cat), k.category, OTHER_CATEGORY, 'c');
    }
    forall i | 0 <= i < |x.paid|
      ensures Forward(x.edges, PaidEdges(x.paid, k)[i].key)
    {
      RolledLevel(CategoryId(x.paid[i].cat), k.category, OTHER_CATEGORY, 'c');
      RolledLevel(PayeeId(x.paid[i].payee), k.payee, OTHER_PAYEE, 'p');
    }
  }

  lemma AccountsGoForward(edges: seq<FlowEdge>, i: nat)
    requires i < |edges|
    ensures Forward(edges, AcctEdges(edges)[i].key)
  {
    var e := edges[i];
    assert e in edges;
    StrippedIsAccount(e.pair.src);
    StrippedIsAccount(e.pair.dst);
  }

  /** An edge goes to a later stage, or is one of the drawn account edges. */
  lemma EdgesGoForward(x: Inputs, p: Pair)
    requires p in LinkPairs(LinksDrawn(x))
    ensures Forward(x.edges, p)
  {
    var l :| l in LinksDrawn(x) && l.pair == p;
    var o := SomeRowDraws(x, l);
    RowsGoForward(x, KeptOf(x));
    if o.FromAccounts? {
      AccountsGoForward(x.edges, o.row);
    }
  }

  function StripAll(s: seq<string>): seq<AccountId> {
    seq(|s|, i requires 0 <= i < |s| => Stripped(s[i]))
  }

  ghost predicate AllForward(edges: seq<FlowEdge>, pairs: set<Pair>) {
    forall p :: p in pairs ==> Forward(edges, p)
  }

  lemma {:induction false} PathsGoForward(edges: seq<FlowEdge>, pairs: set<Pair>, s: seq<string>)
    requires AllForward(edges, pairs) && |s| >= 1 && Consecutive(pairs, s)
    ensures Level(s[0]) <= Level(s[|s| - 1])
    ensures Level(s[0]) == Level(s[|s| - 1]) ==> Consecutive(DrawnPairs(edges), StripAll(s))
  {
    if |s| > 1 {
      var n := |s| - 1;
      var rest := s[..n];
      assert forall i :: 0 <= i < n ==> rest[i] == s[i];
      PathsGoForward(edges, pairs, rest);
      assert Pair(s[n - 1], s[n]) in pairs;
      forall i, j | 0 <= i < n && j == i + 1 && Level(s[0]) == Level(s[n])
        ensures Pair(StripAll(s)[i], StripAll(s)[j]) in DrawnPairs(edges)
      {
        if j < n {
          assert Pair(StripAll(rest)[i], StripAll(rest)[j]) in DrawnPairs(edges);
        }
      }
    }
  }

  /** Edges that go forward, or stay on an acyclic account graph, close no circle. */
  lemma ForwardIsAcyclic(edges: seq<FlowEdge>, pairs: set<Pair>)
    requires AllForward(edges, pairs) && Acyclic(DrawnPairs(edges))
    ensures Acyclic(pairs)
  {
    forall s: seq<string> | |s| >= 2 && Consecutive(pairs, s)
      ensures s[0] != s[|s| - 1]
    {
      PathsGoForward(edges, pairs, s);
      assert |StripAll(s)| >= 2;
    }
  }

  /** The whole money-flow graph is acyclic, whatever the links were. */
  lemma NoMoneyGoesRound(x: Inputs, rows: seq<LinkRow>)
    requires NoSelfLoops(Gross(rows)) && x.edges == Analyze(Gross(rows)).edges
    ensures Acyclic(LinkPairs(GraphOf(x).links))
  {
    DrawnGraphIsAcyclic(Gross(rows));
    forall p | p in LinkPairs(LinksDrawn(x))
      ensures Forward(x.edges, p)
    {
      EdgesGoForward(x, p);
    }
    ForwardIsAcyclic(x.edges, LinkPairs(LinksDrawn(x)));
  }
}
