/** `buildMoneyFlowGraph` as the program runs it. */
module MoneyFlowBuild {
  import opened Ordering
  import opened Currency
  import opened AccountGraph
  import opened FlowTheorems
  import opened FlowRanking
  import opened FlowSums
  import opened Sums
  import opened MoneyFlow
  import opened MoneyFlowTheorems
  import AccountFlows

  lemma OneMoreEntry<K>(entries: seq<Entry<K>>, e: Entry<K>)
    ensures Totals(entries + [e]) == Totals(entries)[e.key := AddAll(At(Totals(entries), e.key), e.value)]
    ensures Drawable(entries + [e])
              == Drawable(entries) + (if PositivePart(e.value) == map[] then []
                  else [Entry(e.key, PositivePart(e.value))])
  {
    assert (entries + [e])[..|entries|] == entries;
  }

  /** Adds one amount under a key, creating the key if need be. */
  method AddNode<K(==)>(m: map<K, Amounts>, key: K, currency: string, amount: int) returns (out: map<K, Amounts>)
    ensures out == m[key := AddAll(At(m, key), One(currency, amount))]
  {
    if key in m {
      AddIsAddAll(m[key], currency, amount);
      out := m[key := Add(m[key], currency, amount)];
    } else {
      AddIsAddAll(map[], currency, amount);
      out := m[key := Add(map[], currency, amount)];
    }
  }

  // ----- the node loops

  // One contribution more, under a prefix of the rows.
  lemma OneMoreIncome(rows: seq<IncomeRow>, i: nat)
    requires i < |rows|
    ensures var m, r := Totals(IncomeEntries(rows[..i])), rows[i];
            Totals(IncomeEntries(rows[..i + 1]))
                == m[IncomeId(r.cat) := AddAll(At(m, IncomeId(r.cat)), One(r.currency, r.total))]
    ensures var m, r := Totals(EarnedEntries(rows[..i])), rows[i];
            Totals(EarnedEntries(rows[..i + 1]))
                == m[AcctId(r.acct) := AddAll(At(m, AcctId(r.acct)), One(r.currency, r.total))]
    ensures Earners(rows[..i + 1]) == Earners(rows[..i]) + {AcctId(rows[i].acct)}
  {
    var r := rows[i];
    assert rows[..i + 1] == rows[..i] + [r];
    assert IncomeEntries(rows[..i + 1])
             == IncomeEntries(rows[..i]) + [Entry(IncomeId(r.cat), One(r.currency, r.total))];
    assert EarnedEntries(rows[..i + 1]) == EarnedEntries(rows[..i]) + [Entry(AcctId(r.acct), One(r.currency, r.total))];
    OneMoreEntry(IncomeEntries(rows[..i]), Entry(IncomeId(r.cat), One(r.currency, r.total)));
    OneMoreEntry(EarnedEntries(rows[..i]), Entry(AcctId(r.acct), One(r.currency, r.total)));
  }

  lemma OneMoreSpend(rows: seq<SpendRow>, i: nat)
    requires i < |rows|
    ensures var m, r := Totals(SpentEntries(rows[..i])), rows[i];
            Totals(SpentEntries(rows[..i + 1]))
                == m[AcctId(r.acct) := AddAll(At(m, AcctId(r.acct)), One(r.currency, r.total))]
    ensures Spenders(rows[..i + 1]) == Spenders(rows[..i]) + {AcctId(rows[i].acct)}
  {
    var r := rows[i];
    assert rows[..i + 1] == rows[..i] + [r];
    assert SpentEntries(rows[..i + 1]) == SpentEntries(rows[..i]) + [Entry(AcctId(r.acct), One(r.currency, r.total))];
    OneMoreEntry(SpentEntries(rows[..i]), Entry(AcctId(r.acct), One(r.currency, r.total)));
  }

  lemma OneMorePaid(rows: seq<PaidRow>, i: nat)
    requires i < |rows|
    ensures var m, r := Totals(CategoryEntries(rows[..i])), rows[i];
            Totals(CategoryEntries(rows[..i + 1]))
                == m[CategoryId(r.cat) := AddAll(At(m, CategoryId(r.cat)), One(r.currency, r.total))]
    ensures var m, r := Totals(PayeeEntries(rows[..i])), rows[i];
            Totals(PayeeEntries(rows[..i + 1]))
                == m[PayeeId(r.payee) := AddAll(At(m, PayeeId(r.payee)), One(r.currency, r.total))]
  {
    var r := rows[i];
    assert rows[..i + 1] == rows[..i] + [r];
    assert CategoryEntries(rows[..i + 1])
             == CategoryEntries(rows[..i]) + [Entry(CategoryId(r.cat), One(r.currency, r.total))];
    assert PayeeEntries(rows[..i + 1]) == PayeeEntries(rows[..i]) + [Entry(PayeeId(r.payee), One(r.currency, r.total))];
    OneMoreEntry(CategoryEntries(rows[..i]), Entry(CategoryId(r.cat), One(r.currency, r.total)));
    OneMoreEntry(PayeeEntries(rows[..i]), Entry(PayeeId(r.payee), One(r.currency, r.total)));
  }

  lemma OneMoreArrival(edges: seq<FlowEdge>, earned: seq<Entry<string>>, i: nat)
    requires i < |edges|
    ensures var m, id := Totals(earned + ArrivingEntries(edges[..i])), AcctId(edges[i].pair.dst);
            Totals(earned + ArrivingEntries(edges[..i + 1])) == m[id := AddAll(At(m, id), edges[i].value)]
  {
    var entry := Entry(AcctId(edges[i].pair.dst), edges[i].value);
    assert earned + ArrivingEntries(edges[..i + 1]) == earned + ArrivingEntries(edges[..i]) + [entry];
    OneMoreEntry(earned + ArrivingEntries(edges[..i]), entry);
  }

  lemma OneMoreDeparture(edges: seq<FlowEdge>, spent: seq<Entry<string>>, i: nat)
    requires i < |edges|
    ensures var m, id := Totals(spent + LeavingEntries(edges[..i])), AcctId(edges[i].pair.src);
            Totals(spent + LeavingEntries(edges[..i + 1])) == m[id := AddAll(At(m, id), edges[i].value)]
  {
    var entry := Entry(AcctId(edges[i].pair.src), edges[i].value);
    assert spent + LeavingEntries(edges[..i + 1]) == spent + LeavingEntries(edges[..i]) + [entry];
    OneMoreEntry(spent + LeavingEntries(edges[..i]), entry);
  }

  lemma OneMoreMover(edges: seq<FlowEdge>, i: nat)
    requires i < |edges|
    ensures Movers(edges[..i + 1]) == Movers(edges[..i]) + {AcctId(edges[i].pair.src), AcctId(edges[i].pair.dst)}
  {
    assert edges[..i + 1] == edges[..i] + [edges[i]];
  }

  method FoldIncome(rows: seq<IncomeRow>)
    returns (nodes: map<string, Amounts>, acctIn: map<string, Amounts>, ids: set<string>)
    ensures nodes == Totals(IncomeEntries(rows)) && acctIn == Totals(EarnedEntries(rows)) && ids == Earners(rows)
  {
    nodes, acctIn, ids := map[], map[], {};
    for i := 0 to |rows|
      invariant nodes == Totals(IncomeEntries(rows[..i])) && acctIn == Totals(EarnedEntries(rows[..i]))
      invariant ids == Earners(rows[..i])
    {
      OneMoreIncome(rows, i);
      nodes := AddNode(nodes, IncomeId(rows[i].cat), rows[i].currency, rows[i].total);
      acctIn := AddNode(acctIn, AcctId(rows[i].acct), rows[i].currency, rows[i].total);
      ids := ids + {AcctId(rows[i].acct)};
    }
    assert rows[..|rows|] == rows;
  }

  method FoldSpend(rows: seq<SpendRow>) returns (acctOut: map<string, Amounts>, ids: set<string>)
    ensures acctOut == Totals(SpentEntries(rows)) && ids == Spenders(rows)
  {
    acctOut, ids := map[], {};
    for i := 0 to |rows|
      invariant acctOut == Totals(SpentEntries(rows[..i])) && ids == Spenders(rows[..i])
    {
      OneMoreSpend(rows, i);
      acctOut := AddNode(acctOut, AcctId(rows[i].acct), rows[i].currency, rows[i].total);
      ids := ids + {AcctId(rows[i].acct)};
    }
    assert rows[..|rows|] == rows;
  }

  method FoldPaid(rows: seq<PaidRow>) returns (categories: map<string, Amounts>, payees: map<string, Amounts>)
    ensures categories == Totals(CategoryEntries(rows)) && payees == Totals(PayeeEntries(rows))
  {
    categories, payees := map[], map[];
    for i := 0 to |rows|
      invariant categories == Totals(CategoryEntries(rows[..i])) && payees == Totals(PayeeEntries(rows[..i]))
    {
      OneMorePaid(rows, i);
      categories := AddNode(categories, CategoryId(rows[i].cat), rows[i].currency, rows[i].total);
      payees := AddNode(payees, PayeeId(rows[i].payee), rows[i].currency, rows[i].total);
    }
    assert rows[..|rows|] == rows;
  }

  method FoldAccountEdges(edges: seq<FlowEdge>, earned: map<string, Amounts>, spent: map<string, Amounts>,
                          ghost income: seq<Entry<string>>, ghost outgo: seq<Entry<string>>)
    returns (acctIn: map<string, Amounts>, acctOut: map<string, Amounts>, ids: set<string>)
    requires earned == Totals(income) && spent == Totals(outgo)
    ensures acctIn == Totals(income + ArrivingEntries(edges)) && acctOut == Totals(outgo + LeavingEntries(edges))
    ensures ids == Movers(edges)
  {
    acctIn, acctOut, ids := earned, spent, {};
    assert income + ArrivingEntries(edges[..0]) == income && outgo + LeavingEntries(edges[..0]) == outgo;
    for i := 0 to |edges|
      invariant acctIn == Totals(income + ArrivingEntries(edges[..i]))
      invariant acctOut == Totals(outgo + LeavingEntries(edges[..i]))
      invariant ids == Movers(edges[..i])
    {
      OneMoreArrival(edges, income, i);
      OneMoreDeparture(edges, outgo, i);
      OneMoreMover(edges, i);
      var leaving := AddAmounts(At(acctOut, AcctId(edges[i].pair.src)), edges[i].value);
      acctOut := acctOut[AcctId(edges[i].pair.src) := leaving];
      var arriving := AddAmounts(At(acctIn, AcctId(edges[i].pair.dst)), edges[i].value);
      acctIn := acctIn[AcctId(edges[i].pair.dst) := arriving];
      ids := ids + {AcctId(edges[i].pair.src), AcctId(edges[i].pair.dst)};
    }
    assert edges[..|edges|] == edges;
  }

  /** The larger of two totals, one currency at a time. */
  method MaxFlowAmounts(flowIn: Amounts, flowOut: Amounts) returns (out: Amounts)
    ensures out == MaxAmounts(flowIn, flowOut)
  {
    out := map[];
    var rest := flowIn.Keys;
    while rest != {}
      invariant rest <= flowIn.Keys
      invariant out == map c | c in flowIn && c !in rest :: MaxAmounts(flowIn, flowOut)[c]
      decreases rest
    {
      var code :| code in rest;
      rest := rest - {code};
      var amount := flowIn[code];
      if Get(flowOut, code) > amount {
        amount := Get(flowOut, code);
      }
      out := out[code := amount];
    }
    rest := flowOut.Keys;
    while rest != {}
      invariant rest <= flowOut.Keys
      invariant out == map c | c in flowIn.Keys + flowOut.Keys
                  && (c in flowIn || c !in rest) :: MaxAmounts(flowIn, flowOut)[c]
      decreases rest
    {
      var code :| code in rest;
      rest := rest - {code};
      if code !in flowIn {
        out := out[code := flowOut[code]];
      }
    }
  }

  method AccountTotals(ids: set<string>, acctIn: map<string, Amounts>, acctOut: map<string, Amounts>)
    returns (nodes: map<string, Amounts>)
    ensures nodes == map id | id in ids :: MaxAmounts(At(acctIn, id), At(acctOut, id))
  {
    nodes := map[];
    var rest := ids;
    while rest != {}
      invariant rest <= ids
      invariant nodes == map id | id in ids && id !in rest :: MaxAmounts(At(acctIn, id), At(acctOut, id))
      decreases rest
    {
      var id :| id in rest;
      rest := rest - {id};
      var total := MaxFlowAmounts(At(acctIn, id), At(acctOut, id));
      nodes := nodes[id := total];
    }
  }

  // ----- rendering a stage

  lemma OtherCodes(m: map<string, Amounts>, tail: set<string>)
    ensures OtherTotal(m, tail).Keys == CodesOf(m, tail)
  {
  }

  lemma AddedByParts(a: Amounts, v: Amounts, sum: Amounts)
    requires sum.Keys == a.Keys + (set c | c in v && v[c] != 0)
    requires forall c :: Get(sum, c) == Get(a, c) + Get(v, c)
    ensures AddAll(a, v) == sum
  {
    forall c | c in sum
      ensures AddAll(a, v)[c] == sum[c]
    {
      assert Get(sum, c) == Get(a, c) + Get(v, c);
    }
  }

  lemma OneMoreAmount(m: map<string, Amounts>, done: set<string>, id: string, c: string)
    requires done <= m.Keys && id in m && id !in done
    ensures Get(OtherTotal(m, done + {id}), c) == Get(OtherTotal(m, done), c) + Get(m[id], c)
  {
    OtherHolds(m, done, c);
    OtherHolds(m, done + {id}, c);
    SumAdd(done, Held(m, c), id);
  }

  lemma OneMoreCodes(m: map<string, Amounts>, done: set<string>, id: string)
    requires id in m && id !in done
    ensures CodesOf(m, done + {id}) == CodesOf(m, done) + (set c | c in m[id] && m[id][c] != 0)
  {
  }

  lemma OneMoreRolledUp(m: map<string, Amounts>, done: set<string>, id: string)
    requires done <= m.Keys && id in m && id !in done
    ensures AddAll(OtherTotal(m, done), m[id]) == OtherTotal(m, done + {id})
  {
    OneMoreCodes(m, done, id);
    OtherCodes(m, done);
    OtherCodes(m, done + {id});
    forall c
      ensures Get(OtherTotal(m, done + {id}), c) == Get(OtherTotal(m, done), c) + Get(m[id], c)
    {
      OneMoreAmount(m, done, id, c);
    }
    AddedByParts(OtherTotal(m, done), m[id], OtherTotal(m, done + {id}));
  }

  method RollUp(m: map<string, Amounts>, kept: set<string>) returns (other: Amounts)
    ensures other == OtherTotal(m, m.Keys - kept)
  {
    other := map[];
    var rest := m.Keys;
    ghost var done: set<string> := {};
    assert OtherTotal(m, {}) == map[];
    while rest != {}
      invariant rest <= m.Keys && done == m.Keys - rest - kept
      invariant other == OtherTotal(m, done)
      decreases rest
    {
      var id :| id in rest;
      rest := rest - {id};
      if id !in kept {
        OneMoreRolledUp(m, done, id);
        other := AddAmounts(other, m[id]);
        done := done + {id};
      }
    }
    assert done == m.Keys - kept;
  }

  method ListNodes(m: map<string, Amounts>, ids: seq<string>) returns (nodes: seq<Node>)
    requires forall id :: id in ids ==> id in m
    ensures nodes == NodesOf(m, ids)
  {
    nodes := [];
    for i := 0 to |ids|
      invariant |nodes| == i && forall k :: 0 <= k < i ==> nodes[k] == Node(ids[k], m[ids[k]])
    {
      assert ids[i] in ids;
      nodes := nodes + [Node(ids[i], m[ids[i]])];
    }
  }

  method RankKept(m: map<string, Amounts>, kept: set<string>) returns (ids: seq<string>)
    ensures ids == RankedNodes(Restrict(m, kept)) && forall id :: id in ids ==> id in m
  {
    var cut := Restrict(m, kept);
    var listing := Listing(cut.Keys);
    ids := RankNodes(cut, listing);
    RankedNodesSpec(cut);
  }

  /** One stage: its kept nodes by volume, then the rolled-up rest. */
  method OrderedFlowNodes(m: map<string, Amounts>, kept: set<string>, otherId: string) returns (nodes: seq<Node>)
    ensures nodes == Stage(m, kept, otherId)
  {
    var ids := RankKept(m, kept);
    nodes := ListNodes(m, ids);
    if otherId != "" && |kept| < |m| {
      var other := RollUp(m, kept);
      nodes := nodes + [Node(otherId, other)];
    }
  }

  // ----- the edge loops

  lemma OneMoreCode(base: Amounts, added: Amounts, code: string, amount: int)
    requires code !in added && amount > 0 && forall c :: c in added ==> added[c] > 0
    ensures AddAll(base, added[code := amount])
              == Add(if added == map[] then base else AddAll(base, added), code, amount)
  {
    if added == map[] {
      assert AddAll(base, map[]) == base;
    }
  }

  /** The positive amounts of `value` whose codes are done. */
  function DoneOf(value: Amounts, rest: set<string>): Amounts {
    map c | c in value && value[c] > 0 && c !in rest :: value[c]
  }

  function Drawn(edges: map<Pair, Amounts>, key: Pair, value: Amounts): map<Pair, Amounts> {
    if value == map[] then edges else edges[key := AddAll(At(edges, key), value)]
  }

  lemma OneMoreDone(edges: map<Pair, Amounts>, key: Pair, value: Amounts, rest: set<string>, code: string)
    requires code in value && code in rest
    ensures var before, after := DoneOf(value, rest), DoneOf(value, rest - {code});
            if value[code] > 0
            then Drawn(edges, key, after)
                == Drawn(edges, key, before)[key := Add(At(Drawn(edges, key, before), key), code, value[code])]
            else after == before
  {
    var before, after := DoneOf(value, rest), DoneOf(value, rest - {code});
    if value[code] > 0 {
      assert after == before[code := value[code]];
      OneMoreCode(At(edges, key), before, code, value[code]);
    }
  }

  /** Adds the positive amounts under an edge, drawing it if there is one. */
  method AddEdge(edges: map<Pair, Amounts>, key: Pair, value: Amounts) returns (out: map<Pair, Amounts>)
    ensures out == Drawn(edges, key, PositivePart(value))
  {
    out := edges;
    var rest := value.Keys;
    assert DoneOf(value, rest) == map[];
    while rest != {}
      invariant rest <= value.Keys
      invariant out == Drawn(edges, key, DoneOf(value, rest))
      decreases rest
    {
      var code :| code in rest;
      OneMoreDone(edges, key, value, rest, code);
      rest := rest - {code};
      if value[code] > 0 {
        out := out[key := Add(At(out, key), code, value[code])];
      }
    }
    assert DoneOf(value, {}) == PositivePart(value);
  }

  lemma OneMoreDrawn(entries: seq<Entry<Pair>>, i: nat)
    requires i < |entries|
    ensures Totals(Drawable(entries[..i + 1]))
              == Drawn(Totals(Drawable(entries[..i])), entries[i].key, PositivePart(entries[i].value))
  {
    var e := entries[i];
    assert entries[..i + 1] == entries[..i] + [e];
    OneMoreEntry(entries[..i], e);
    var before := Drawable(entries[..i]);
    if PositivePart(e.value) == map[] {
      assert before + [] == before;
    } else {
      OneMoreEntry(before, Entry(e.key, PositivePart(e.value)));
    }
  }

  method DrawEdges(entries: seq<Entry<Pair>>) returns (edges: map<Pair, Amounts>)
    ensures edges == Totals(Drawable(entries))
  {
    edges := map[];
    for i := 0 to |entries|
      invariant edges == Totals(Drawable(entries[..i]))
    {
      OneMoreDrawn(entries, i);
      edges := AddEdge(edges, entries[i].key, entries[i].value);
    }
    assert entries[..|entries|] == entries;
  }

  method SortPairs(edges: map<Pair, Amounts>) returns (keys: seq<Pair>)
    ensures keys == SortSet(PairLe, edges.Keys) && forall p :: p in keys ==> p in edges
  {
    var listing := Listing(edges.Keys);
    PairOrder();
    SortListing(PairLe, listing, edges.Keys);
    SortSetSpec(PairLe, edges.Keys);
    keys := SortBy(PairLe, listing);
  }

  method ListLinks(edges: map<Pair, Amounts>, keys: seq<Pair>) returns (links: seq<Link>)
    requires forall p :: p in keys ==> p in edges
    ensures links == LinksOver(edges, keys)
  {
    links := [];
    for i := 0 to |keys|
      invariant |links| == i && forall k :: 0 <= k < i ==> links[k] == Link(keys[k], edges[keys[k]])
    {
      assert keys[i] in keys;
      links := links + [Link(keys[i], edges[keys[i]])];
    }
  }

  method SortLinks(edges: map<Pair, Amounts>) returns (links: seq<Link>)
    ensures links == LinksOf(edges)
  {
    var keys := SortPairs(edges);
    links := ListLinks(edges, keys);
  }

  method Render(incomeNodes: map<string, Amounts>, accounts: map<string, Amounts>, categories: map<string, Amounts>,
                payees: map<string, Amounts>, x: Inputs)
    returns (g: Response)
    requires incomeNodes == Totals(IncomeEntries(x.income)) && accounts == AcctNodes(x)
    requires categories == Totals(CategoryEntries(x.paid)) && payees == Totals(PayeeEntries(x.paid))
    ensures g == GraphOf(x)
  {
    var listing := Listing(incomeNodes.Keys);
    var incomeKept := KeepTopFlowNodes(incomeNodes, listing, x.limit);
    listing := Listing(categories.Keys);
    var catKept := KeepTopFlowNodes(categories, listing, x.limit);
    listing := Listing(payees.Keys);
    var payeeKept := KeepTopFlowNodes(payees, listing, x.limit);
    var a := OrderedFlowNodes(incomeNodes, incomeKept, OTHER_INCOME);
    var b := OrderedFlowNodes(accounts, accounts.Keys, "");
    var c := OrderedFlowNodes(categories, catKept, OTHER_CATEGORY);
    var d := OrderedFlowNodes(payees, payeeKept, OTHER_PAYEE);
    var edges := DrawEdges(EdgeEntries(x, Kept(incomeKept, catKept, payeeKept)));
    var links := SortLinks(edges);
    g := Response(a + b + c + d, links);
  }

  /** The whole response, and the cycles the account graph could not draw. */
  method BuildMoneyFlowGraph(income: seq<IncomeRow>, spend: seq<SpendRow>, paid: seq<PaidRow>, links: seq<LinkRow>,
                             limit: int)
    returns (g: Response, cycles: seq<Cycle>)
    ensures NoSelfLoops(Gross(links))
    ensures g == GraphOf(Inputs(income, spend, paid, Analyze(Gross(links)).edges, limit))
    ensures cycles == Analyze(Gross(links)).cycles
  {
    var incomeNodes, earned, earners := FoldIncome(income);
    var spent, spenders := FoldSpend(spend);
    var categories, payees := FoldPaid(paid);
    var edges, found := AccountFlows.AnalyzeAccountFlows(links);
    cycles := found;
    var acctIn, acctOut, movers := FoldAccountEdges(edges, earned, spent, EarnedEntries(income), SpentEntries(spend));
    var accounts := AccountTotals(earners + spenders + movers, acctIn, acctOut);
    var x := Inputs(income, spend, paid, edges, limit);
    assert earners + spenders + movers == AcctIds(x);
    assert accounts == AcctNodes(x);
    g := Render(incomeNodes, accounts, categories, payees, x);
  }
}
