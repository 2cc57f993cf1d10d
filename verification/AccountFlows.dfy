/** `analyzeAccountFlows` and its helpers as the program runs them: loops over
    maps and rows, and a recursive walk that updates its variables in place.
    Each is proved to compute the function the theorems are about. */
module AccountFlows {
  import opened Options
  import opened Ordering
  import opened Currency
  import opened AccountGraph
  import WalkProofs
  import opened FlowTheorems

  // ----- netting one pair

  method NetSide(side: Amounts, other: Amounts) returns (out: Amounts)
    ensures out == NetFlow(side, other)
  {
    out := map[];
    var rest := side.Keys;
    while rest != {}
      invariant rest <= side.Keys
      invariant out == map c | c in NetFlow(side, other) && c !in rest :: NetFlow(side, other)[c]
      decreases rest
    {
      var code :| code in rest;
      rest := rest - {code};
      var net := side[code] - Get(other, code);
      if net > 0 {
        out := out[code := net];
      }
    }
  }

  /** Cancels two opposing flows currency by currency. */
  method NetFlowAmounts(fwd: Amounts, rev: Amounts) returns (outFwd: Amounts, outRev: Amounts)
    ensures outFwd == NetFlow(fwd, rev) && outRev == NetFlow(rev, fwd)
  {
    outFwd := NetSide(fwd, rev);
    outRev := NetSide(rev, fwd);
  }

  // ----- the loop a back edge closes

  // The legs along the stack and the one that closes the loop.
  method CloseLoop(gross: Flows, nodes: seq<AccountId>, closing: Amounts) returns (r: Option<seq<Leg>>)
    requires |nodes| >= 2
    ensures r == if Consecutive(gross.Keys, nodes) then Some(LoopLegs(gross, nodes, closing)) else None
  {
    var legs: seq<Leg> := [];
    var i := 0;
    while i < |nodes|
      invariant 0 <= i <= |nodes| && |legs| == i
      invariant forall j, k :: 0 <= j < |nodes| - 1 && k == j + 1 && j < i ==> Pair(nodes[j], nodes[k]) in gross
      invariant forall j :: 0 <= j < i && j < |nodes| - 1 ==>
                  legs[j] == Leg(Pair(nodes[j], nodes[j + 1]), gross[Pair(nodes[j], nodes[j + 1])], map[])
      invariant i == |nodes| ==> legs[i - 1] == Leg(Pair(nodes[i - 1], nodes[0]), closing, map[])
    {
      if i == |nodes| - 1 {
        legs := legs + [Leg(Pair(nodes[i], nodes[0]), closing, map[])];
      } else {
        if Pair(nodes[i], nodes[i + 1]) !in gross {
          return None;
        }
        legs := legs + [Leg(Pair(nodes[i], nodes[i + 1]), gross[Pair(nodes[i], nodes[i + 1])], map[])];
      }
      i := i + 1;
    }
    assert legs == LoopLegs(gross, nodes, closing);
    r := Some(legs);
  }

  method StackCycle(gross: Flows, stack: seq<AccountId>, v: AccountId, closing: Amounts) returns (r: Option<Cycle>)
    ensures r == FlowStackCycle(gross, stack, v, closing)
  {
    var start := 0;
    while start < |stack| && stack[start] != v
      invariant 0 <= start <= |stack| && v !in stack[..start]
    {
      start := start + 1;
    }
    if start == |stack| {
      return None;
    }
    assert IndexOf(stack, v) == start by {
      assert stack[start] == v;
      assert v in stack;
    }
    var nodes := stack[start..];
    if |nodes| < 2 {
      return None;
    }
    var legs := CloseLoop(gross, nodes, closing);
    r := if legs.Some? then Some(Cycle(Loop, nodes, legs.value)) else None;
  }

  // ----- the depth-first walk

  class FlowWalk {
    const gross: Flows
    const agg: Flows
    const adj: map<AccountId, seq<AccountId>>
    var state: map<AccountId, int>
    var stack: seq<AccountId>
    var kept: seq<Pair>
    var dropped: set<Pair>
    var cycles: seq<Cycle>

    ghost function Value(): Walk
      reads this
    {
      Walk(state, stack, kept, dropped, cycles)
    }

    ghost predicate Valid() {
      && GraphOk(Graph(gross, agg))
      && forall u :: Adjacent(agg, u) == if u in adj then adj[u] else []
    }

    constructor (gross: Flows, agg: Flows, adj: map<AccountId, seq<AccountId>>, found: seq<Cycle>)
      requires GraphOk(Graph(gross, agg))
      requires forall u :: Adjacent(agg, u) == if u in adj then adj[u] else []
      ensures Valid() && this.gross == gross && this.agg == agg && this.adj == adj
      ensures Value() == Start(found)
    {
      this.gross, this.agg, this.adj := gross, agg, adj;
      state, stack, kept, dropped, cycles := map[], [], [], {}, found;
    }

    method Visit(u: AccountId)
      requires Valid() && u in Nodes(Graph(gross, agg)) && u !in state
      modifies this
      ensures Value() == AccountGraph.Visit(Graph(gross, agg), old(Value()), u)
      decreases Nodes(Graph(gross, agg)) - state.Keys, 0
    {
      ghost var g := Graph(gross, agg);
      state := state[u := 1];
      stack := stack + [u];
      ghost var entered := Value();
      WalkProofs.VisitIs(g, old(Value()), u);
      FollowAll(u, if u in adj then adj[u] else []);
      stack := stack[..|stack| - 1];
      state := state[u := 2];
    }

    method FollowAll(u: AccountId, vs: seq<AccountId>)
      requires Valid() && u in state && forall x :: x in vs ==> Pair(u, x) in agg
      modifies this
      ensures old(state).Keys <= state.Keys
      ensures Value() == Scan(Graph(gross, agg), old(Value()), u, vs)
      decreases Nodes(Graph(gross, agg)) - state.Keys, 2
    {
      ghost var g := Graph(gross, agg);
      var i := 0;
      while i < |vs|
        invariant 0 <= i <= |vs| && old(state).Keys <= state.Keys
        invariant Scan(g, Value(), u, vs[i..]) == Scan(g, old(Value()), u, vs)
      {
        assert vs[i..][0] == vs[i] && vs[i..][1..] == vs[i + 1..];
        Follow(u, vs[i], vs[i..]);
        i := i + 1;
      }
    }

    // One edge of the scan of `u`; `vs` is what is left of its neighbours.
    method Follow(u: AccountId, v: AccountId, ghost vs: seq<AccountId>)
      requires Valid() && u in state && vs != [] && vs[0] == v
      requires forall x :: x in vs ==> Pair(u, x) in agg
      modifies this
      ensures old(state).Keys <= state.Keys
      ensures Scan(Graph(gross, agg), old(Value()), u, vs) == Scan(Graph(gross, agg), Value(), u, vs[1..])
      decreases Nodes(Graph(gross, agg)) - state.Keys, 1
    {
      var key := Pair(u, v);
      assert v in vs && key in agg;
      if v in state && state[v] == 1 {
        dropped := dropped + {key};
        var cycle := StackCycle(gross, stack, v, gross[key]);
        if cycle.Some? {
          cycles := cycles + [cycle.value];
        }
        assert old(cycles) + [] == old(cycles);
        assert Value() == Drop(Graph(gross, agg), old(Value()), key);
      } else {
        kept := kept + [key];
        if v !in state {
          assert v in Nodes(Graph(gross, agg)) by { assert key.dst == v; }
          Visit(v);
        }
      }
    }
  }

  // ----- listing and sorting the keys of a map

  // Each source's neighbours so far, each once.
  ghost predicate AdjacencyOf(keys: seq<Pair>, found: map<AccountId, seq<AccountId>>) {
    && (forall u :: u in found ==> Distinct(found[u]) && found[u] != [])
    && (forall p: Pair :: p in keys <==> p.src in found && p.dst in found[p.src])
  }

  lemma AddNeighbour(keys: seq<Pair>, found: map<AccountId, seq<AccountId>>, p: Pair)
    requires AdjacencyOf(keys, found) && p !in keys
    ensures AdjacencyOf(keys + [p], found[p.src := (if p.src in found then found[p.src] else []) + [p.dst]])
  {
  }

  lemma AdjacencySorted(agg: Flows, keys: seq<Pair>, found: map<AccountId, seq<AccountId>>, u: AccountId)
    requires AdjacencyOf(keys, found) && forall p :: p in keys <==> p in agg
    ensures Adjacent(agg, u) == if u in found then SortBy(StrLe, found[u]) else []
  {
    StrOrder();
    if u in found {
      forall v ensures v in found[u] <==> v in Successors(agg, u) {
        assert Pair(u, v) in keys <==> v in found[u];
        assert Pair(u, v).dst == v;
      }
      SortListing(StrLe, found[u], Successors(agg, u));
    } else {
      assert Successors(agg, u) == {};
    }
  }

  method Adjacency(agg: Flows) returns (adj: map<AccountId, seq<AccountId>>)
    ensures forall u :: u in adj <==> u in Sources(agg)
    ensures forall u :: Adjacent(agg, u) == if u in adj then adj[u] else []
  {
    var found: map<AccountId, seq<AccountId>> := map[];
    var keys := Listing(agg.Keys);
    for n := 0 to |keys|
      invariant AdjacencyOf(keys[..n], found)
    {
      var key := keys[n];
      AddNeighbour(keys[..n], found, key);
      assert keys[..n + 1] == keys[..n] + [key];
      found := found[key.src := (if key.src in found then found[key.src] else []) + [key.dst]];
    }
    assert keys[..|keys|] == keys;
    adj := map u | u in found :: SortBy(StrLe, found[u]);
    forall u ensures u in adj <==> u in Sources(agg) {
      if u in found {
        assert Pair(u, found[u][0]) in keys;
      }
    }
    forall u ensures Adjacent(agg, u) == if u in adj then adj[u] else [] {
      AdjacencySorted(agg, keys, found, u);
    }
  }

  // ----- netting all pairs

  predicate Met(met: seq<Pair>, p: Pair) {
    p in met || Reverse(p) in met
  }

  // Pairs met, themselves or their reverse, hold their netted value.
  ghost predicate NettedAt(gross: Flows, met: seq<Pair>, agg: Flows, seen: set<Pair>, p: Pair)
    requires p in gross
  {
    if Met(met, p) then
      && (p in agg <==> Survives(gross, p)) && (p in agg ==> agg[p] == NetValue(gross, p))
      && (p in seen <==> p in met || Reverse(p) in gross)
    else p in agg && agg[p] == gross[p] && p !in seen
  }

  ghost predicate NettedSoFar(gross: Flows, met: seq<Pair>, agg: Flows, seen: set<Pair>) {
    && agg.Keys <= gross.Keys && (forall p :: p in met ==> p in gross)
    && forall p {:trigger NettedAt(gross, met, agg, seen, p)} :: p in gross ==> NettedAt(gross, met, agg, seen, p)
  }

  function WithSide(agg: Flows, p: Pair, net: Amounts): Flows {
    if net == map[] then agg - {p} else agg[p := net]
  }

  lemma NetBoth(gross: Flows, met: seq<Pair>, agg: Flows, seen: set<Pair>, key: Pair)
    requires NoSelfLoops(gross) && NettedSoFar(gross, met, agg, seen)
    requires key in gross && Reverse(key) in gross && !Met(met, key)
    ensures key in agg && Reverse(key) in agg
    ensures agg[key] == gross[key] && agg[Reverse(key)] == gross[Reverse(key)]
    ensures NettedSoFar(gross, met + [key],
              WithSide(WithSide(agg, key, NetValue(gross, key)), Reverse(key), NetValue(gross, Reverse(key))),
              seen + {key} + {Reverse(key)})
  {
    var rev := Reverse(key);
    var agg' := WithSide(WithSide(agg, key, NetValue(gross, key)), rev, NetValue(gross, rev));
    assert NettedAt(gross, met, agg, seen, key) && NettedAt(gross, met, agg, seen, rev);
    forall p | p in gross ensures NettedAt(gross, met + [key], agg', seen + {key} + {rev}, p) {
      assert NettedAt(gross, met, agg, seen, p);
      assert Met(met + [key], p) <==> Met(met, p) || p == key || p == rev;
    }
  }

  lemma NetNone(gross: Flows, met: seq<Pair>, agg: Flows, seen: set<Pair>, key: Pair)
    requires NoSelfLoops(gross) && NettedSoFar(gross, met, agg, seen) && key in gross
    requires Reverse(key) !in gross || Met(met, key)
    ensures NettedSoFar(gross, met + [key], agg, seen + {key})
  {
    forall p | p in gross ensures NettedAt(gross, met + [key], agg, seen + {key}, p) {
      assert NettedAt(gross, met, agg, seen, p);
      assert Met(met + [key], p) <==> Met(met, p) || p == key || p == Reverse(key);
    }
  }

  // In pair order, the first of two opposite pairs is the one that leads.
  lemma LeadsWhenFirst(gross: Flows, keys: seq<Pair>, i: nat)
    requires NoSelfLoops(gross) && i < |keys| && Sorted(PairLe, keys) && Distinct(keys)
    requires forall p :: p in keys <==> p in gross
    ensures keys[i] !in keys[..i]
    ensures Leads(gross, keys[i]) <==> Reverse(keys[i]) in gross && Reverse(keys[i]) !in keys[..i]
  {
    var p, q := keys[i], Reverse(keys[i]);
    PairOrder();
    if q in gross {
      var j :| 0 <= j < |keys| && keys[j] == q;
      assert p != q;
      if j < i {
        assert PairLe(q, p);
        assert q in keys[..i];
      } else {
        assert PairLe(p, q);
        assert forall k :: 0 <= k < i ==> keys[k] != keys[j];
      }
    }
  }

  method SortedKeys(gross: Flows) returns (keys: seq<Pair>)
    ensures keys == SortSet(PairLe, gross.Keys)
    ensures Sorted(PairLe, keys) && Distinct(keys) && forall p :: p in keys <==> p in gross
  {
    var listing := Listing(gross.Keys);
    PairOrder();
    SortListing(PairLe, listing, gross.Keys);
    SortSetSpec(PairLe, gross.Keys);
    keys := SortBy(PairLe, listing);
  }

  lemma AllNetted(gross: Flows, keys: seq<Pair>, agg: Flows, seen: set<Pair>)
    requires NettedSoFar(gross, keys, agg, seen) && forall p :: p in keys <==> p in gross
    ensures agg == Netted(gross)
  {
    forall p | p in gross ensures p in agg <==> Survives(gross, p)
      ensures p in agg ==> agg[p] == NetValue(gross, p)
    {
      assert NettedAt(gross, keys, agg, seen, p);
    }
  }

  lemma OneMoreKey(gross: Flows, keys: seq<Pair>, i: nat)
    requires i < |keys|
    ensures keys[..i + 1] == keys[..i] + [keys[i]]
    ensures Reciprocals(gross, keys[..i + 1])
         == Reciprocals(gross, keys[..i]) + if Leads(gross, keys[i]) then [ReciprocalCycle(gross, keys[i])] else []
  {
    assert keys[..i + 1][..i] == keys[..i];
  }

  lemma NoneNetted(gross: Flows)
    ensures NettedSoFar(gross, [], gross, {})
  {
  }

  // One turn of the netting loop.
  method NetPair(gross: Flows, ghost met: seq<Pair>, agg: Flows, seen: set<Pair>, cycles: seq<Cycle>, key: Pair)
    returns (agg': Flows, seen': set<Pair>, cycles': seq<Cycle>)
    requires NoSelfLoops(gross) && NettedSoFar(gross, met, agg, seen) && key in gross && key !in met
    requires Leads(gross, key) <==> Reverse(key) in gross && Reverse(key) !in met
    ensures NettedSoFar(gross, met + [key], agg', seen')
    ensures cycles' == cycles + if Leads(gross, key) then [ReciprocalCycle(gross, key)] else []
  {
    agg', seen', cycles' := agg, seen, cycles;
    var rev := Reverse(key);
    assert NettedAt(gross, met, agg, seen, key);
    if key !in agg || key in seen {
      NetNone(gross, met, agg, seen, key);
      assert key in seen;
      assert seen + {key} == seen;
      return;
    }
    seen' := seen' + {key};
    if rev in gross {
      assert NettedAt(gross, met, agg, seen, rev);
    }
    if rev !in agg {
      NetNone(gross, met, agg, seen, key);
      return;
    }
    seen' := seen' + {rev};
    cycles' := cycles' + [Cycle(Reciprocal, [key.src, key.dst],
        [Leg(key, gross[key], map[]), Leg(rev, gross[rev], map[])])];
    NetBoth(gross, met, agg, seen, key);
    var fwdNet, revNet := NetFlowAmounts(agg[key], agg[rev]);
    agg' := WithSide(WithSide(agg, key, fwdNet), rev, revNet);
  }

  /** Nets every pair that flows both ways, recording it first. */
  method NetReciprocals(gross: Flows) returns (agg: Flows, cycles: seq<Cycle>)
    requires NoSelfLoops(gross)
    ensures agg == Netted(gross)
    ensures cycles == Reciprocals(gross, SortSet(PairLe, gross.Keys))
  {
    var keys := SortedKeys(gross);
    agg, cycles := gross, [];
    var seen: set<Pair> := {};
    NoneNetted(gross);
    var i := 0;
    while i < |keys|
      invariant 0 <= i <= |keys|
      invariant NettedSoFar(gross, keys[..i], agg, seen)
      invariant cycles == Reciprocals(gross, keys[..i])
    {
      LeadsWhenFirst(gross, keys, i);
      assert keys[i] in keys;
      agg, seen, cycles := NetPair(gross, keys[..i], agg, seen, cycles, keys[i]);
      OneMoreKey(gross, keys, i);
      i := i + 1;
    }
    assert keys[..i] == keys;
    AllNetted(gross, keys, agg, seen);
  }

  // ----- the whole analysis

  lemma {:induction false} GrossNoSelfLoops(rows: seq<LinkRow>)
    ensures NoSelfLoops(Gross(rows))
  {
    if rows != [] {
      GrossNoSelfLoops(rows[..|rows| - 1]);
    }
  }

  method Aggregate(rows: seq<LinkRow>) returns (gross: Flows)
    ensures gross == Gross(rows)
  {
    gross := map[];
    for n := 0 to |rows|
      invariant gross == Gross(rows[..n])
    {
      var ends := FlowLinkEnds(rows[n]);
      if ends.Some? {
        var before := if ends.value in gross then gross[ends.value] else map[];
        gross := gross[ends.value := Add(before, rows[n].currency, rows[n].amount)];
      }
      assert rows[..n + 1][..n] == rows[..n];
    }
    assert rows[..|rows|] == rows;
  }

  method SortedRoots(gross: Flows, sources: set<AccountId>) returns (roots: seq<AccountId>)
    requires sources == Sources(Netted(gross))
    ensures roots == SortSet(StrLe, sources)
    ensures forall u :: u in roots ==> u in Nodes(Graph(gross, Netted(gross)))
  {
    var listing := Listing(sources);
    StrOrder();
    SortListing(StrLe, listing, sources);
    RootsAreNodes(gross);
    roots := SortBy(StrLe, listing);
  }

  lemma OneMoreRoot(g: Graph, w: Walk, roots: seq<AccountId>, n: nat)
    requires GraphOk(g) && n < |roots| && forall u :: u in roots ==> u in Nodes(g)
    ensures roots[n] in Nodes(g)
    ensures WalkFrom(g, w, roots[..n + 1])
         == var before := WalkFrom(g, w, roots[..n]);
            if roots[n] in before.state then before else AccountGraph.Visit(g, before, roots[n])
  {
    assert roots[..n + 1][..n] == roots[..n];
  }

  /** Walks the netted edges from every account that has one. */
  method WalkAll(gross: Flows, agg: Flows, found: seq<Cycle>) returns (w: FlowWalk)
    requires NoSelfLoops(gross) && agg == Netted(gross)
    requires found == Reciprocals(gross, SortSet(PairLe, gross.Keys))
    ensures w.Value() == FinalWalk(gross)
  {
    var adj := Adjacency(agg);
    w := new FlowWalk(gross, agg, adj, found);
    var roots := SortedRoots(gross, adj.Keys);
    ghost var g := Graph(gross, agg);
    for n := 0 to |roots|
      invariant w.Valid()
      invariant w.Value() == WalkFrom(g, Start(found), roots[..n])
    {
      OneMoreRoot(g, Start(found), roots, n);
      if roots[n] !in w.state {
        w.Visit(roots[n]);
      }
    }
    assert roots[..|roots|] == roots;
  }

  method FillDiscarded(agg: Flows, dropped: set<Pair>, cycles: seq<Cycle>) returns (out: seq<Cycle>)
    ensures out == AccountAll(agg, dropped, cycles)
  {
    out := [];
    for i := 0 to |cycles|
      invariant |out| == i && forall k :: 0 <= k < i ==> out[k] == Account(agg, dropped, cycles[k])
    {
      var legs: seq<Leg> := [];
      for j := 0 to |cycles[i].legs|
        invariant |legs| == j
        invariant forall k :: 0 <= k < j ==> legs[k] == Account(agg, dropped, cycles[i]).legs[k]
      {
        var leg := cycles[i].legs[j];
        var shown := if leg.pair in agg && leg.pair !in dropped then agg[leg.pair] else map[];
        var discarded: Amounts := map[];
        var rest := leg.value.Keys;
        while rest != {}
          invariant rest <= leg.value.Keys
          invariant discarded == map c | c in Loss(leg.value, shown) && c !in rest :: Loss(leg.value, shown)[c]
          decreases rest
        {
          var code :| code in rest;
          rest := rest - {code};
          if leg.value[code] - Get(shown, code) != 0 {
            discarded := discarded[code := leg.value[code] - Get(shown, code)];
          }
        }
        assert discarded == Loss(leg.value, shown);
        legs := legs + [leg.(discarded := discarded)];
      }
      assert legs == Account(agg, dropped, cycles[i]).legs;
      out := out + [cycles[i].(legs := legs)];
    }
  }

  method DedupeCycles(cycles: seq<Cycle>) returns (unique: seq<Cycle>)
    ensures unique == Dedupe(cycles)
  {
    unique := [];
    var seen: set<string> := {};
    for i := 0 to |cycles|
      invariant unique == Dedupe(cycles[..i])
      invariant forall key :: key in seen <==> exists k :: 0 <= k < i && CycleKey(cycles[k]) == key
    {
      var key := CycleKey(cycles[i]);
      assert cycles[..i + 1][..i] == cycles[..i];
      if key !in seen {
        seen := seen + {key};
        unique := unique + [cycles[i]];
      }
    }
    assert cycles[..|cycles|] == cycles;
  }

  /** The drawn account edges and the cycles that had to be hidden. */
  method AnalyzeAccountFlows(rows: seq<LinkRow>) returns (edges: seq<FlowEdge>, cycles: seq<Cycle>)
    ensures NoSelfLoops(Gross(rows))
    ensures Analysis(edges, cycles) == Analyze(Gross(rows))
  {
    GrossNoSelfLoops(rows);
    var gross := Aggregate(rows);
    var agg, found := NetReciprocals(gross);
    var w := WalkAll(gross, agg, found);
    KeptAreNetted(gross);
    assert w.kept == w.Value().kept;
    edges := SortBy(EdgeLe, EdgesOf(agg, w.kept));
    var accounted := FillDiscarded(agg, w.dropped, w.cycles);
    var unique := DedupeCycles(accounted);
    cycles := SortBy(CycleLe, unique);
  }
}
