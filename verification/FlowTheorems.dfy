/** What `analyzeAccountFlows` promises about its result: the drawn edges are
    acyclic, only edges that close a loop are left out, and every amount that is
    not drawn is reported, exactly once per leg, in a cycle that survives the
    de-duplication by participants. */
module FlowTheorems {
  import opened Ordering
  import opened Currency
  import opened AccountGraph
  import opened WalkProofs

  datatype Analysis = Analysis(edges: seq<FlowEdge>, cycles: seq<Cycle>)

  function Start(cycles: seq<Cycle>): Walk {
    Walk(map[], [], [], {}, cycles)
  }

  lemma RootsAreNodes(gross: Flows)
    ensures var agg := Netted(gross);
            forall u :: u in SortSet(StrLe, Sources(agg)) <==> u in Sources(agg)
    ensures Sources(Netted(gross)) <= Nodes(Graph(gross, Netted(gross)))
  {
    StrOrder();
    SortSetSpec(StrLe, Sources(Netted(gross)));
  }

  ghost function FinalWalk(gross: Flows): Walk
    requires NoSelfLoops(gross)
  {
    var agg := Netted(gross);
    RootsAreNodes(gross);
    WalkFrom(Graph(gross, agg), Start(Reciprocals(gross, SortSet(PairLe, gross.Keys))), SortSet(StrLe, Sources(agg)))
  }

  predicate EdgeLe(a: FlowEdge, b: FlowEdge) {
    PairLe(a.pair, b.pair)
  }

  function EdgesOf(agg: Flows, kept: seq<Pair>): seq<FlowEdge>
    requires forall p :: p in kept ==> p in agg
  {
    seq(|kept|, i requires 0 <= i < |kept| => FlowEdge(kept[i], agg[kept[i]]))
  }

  lemma GrownTrans(a: seq<Cycle>, b: seq<Cycle>, c: seq<Cycle>)
    requires Grown(a, b) && Grown(b, c)
    ensures Grown(a, c)
  {
  }

  lemma {:induction false} WalkFromKeeps(g: Graph, w: Walk, roots: seq<AccountId>, rank: map<AccountId, nat>)
    returns (rank': map<AccountId, nat>)
    requires GraphOk(g) && (forall u :: u in roots ==> u in Nodes(g))
    requires Inv(g, w, rank) && w.stack == []
    ensures Inv(g, WalkFrom(g, w, roots), rank') && WalkFrom(g, w, roots).stack == []
    ensures Grown(w.cycles, WalkFrom(g, w, roots).cycles)
    ensures forall u :: u in roots ==> u in WalkFrom(g, w, roots).state
  {
    rank' := rank;
    if roots != [] {
      var u := roots[|roots| - 1];
      var init := roots[..|roots| - 1];
      rank' := WalkFromKeeps(g, w, init, rank);
      var before := WalkFrom(g, w, init);
      if u !in before.state {
        rank' := VisitKeeps(g, before, u, rank');
        GrownTrans(w.cycles, before.cycles, Visit(g, before, u).cycles);
      }
      assert forall v :: v in roots ==> v in init || v == u;
    }
  }

  ghost predicate IsReciprocal(gross: Flows, keys: seq<Pair>, c: Cycle) {
    exists p :: p in keys && Leads(gross, p) && c == ReciprocalCycle(gross, p)
  }

  lemma {:induction false} ReciprocalsAre(gross: Flows, keys: seq<Pair>)
    ensures forall c :: c in Reciprocals(gross, keys) <==> IsReciprocal(gross, keys, c)
  {
    if keys != [] {
      var p, init := keys[|keys| - 1], keys[..|keys| - 1];
      ReciprocalsAre(gross, init);
      assert forall q :: q in keys <==> q in init || q == p;
      forall c ensures c in Reciprocals(gross, keys) <==> IsReciprocal(gross, keys, c) {
        assert c in Reciprocals(gross, keys)
          <==> c in Reciprocals(gross, init) || (Leads(gross, p) && c == ReciprocalCycle(gross, p));
      }
    }
  }

  lemma StartOk(g: Graph, cycles: seq<Cycle>)
    requires forall c :: c in cycles ==> c.kind == Reciprocal
    ensures Inv(g, Start(cycles), map[])
  {
    assert forall i :: 0 <= i < |cycles| ==> cycles[i].kind == Reciprocal;
  }

  lemma AllSettled(g: Graph, w: Walk)
    requires Colours(g, w) && EdgesOk(g, w) && w.stack == []
    requires forall u :: u in Sources(g.agg) ==> u in w.state
    ensures forall p :: p in g.agg <==> Settled(w, p)
    ensures forall p :: p in w.kept ==> StateOf(w, p.src) == 2
  {
    forall p | p in g.agg ensures Settled(w, p) && StateOf(w, p.src) == 2 {
      assert p.src in Sources(g.agg);
      assert p.src !in w.stack;
    }
    forall p | p in w.kept ensures p in g.agg {
      assert Settled(w, p);
    }
  }

  /** The state in which the walk ends: every netted edge is settled, and kept
      edges go down the finishing order. */
  lemma WalkSound(gross: Flows) returns (rank: map<AccountId, nat>)
    requires NoSelfLoops(gross)
    ensures var agg, w := Netted(gross), FinalWalk(gross);
            && Inv(Graph(gross, agg), w, rank)
            && (forall p :: p in agg <==> Settled(w, p))
            && Grown(Reciprocals(gross, SortSet(PairLe, gross.Keys)), w.cycles)
            && (forall p :: p in w.kept ==> p.src in rank && p.dst in rank && rank[p.dst] < rank[p.src])
  {
    var agg := Netted(gross);
    var g := Graph(gross, agg);
    var cycles := Reciprocals(gross, SortSet(PairLe, gross.Keys));
    ReciprocalsAre(gross, SortSet(PairLe, gross.Keys));
    StartOk(g, cycles);
    RootsAreNodes(gross);
    rank := WalkFromKeeps(g, Start(cycles), SortSet(StrLe, Sources(agg)), map[]);
    AllSettled(g, FinalWalk(gross));
  }

  lemma KeptAreNetted(gross: Flows)
    requires NoSelfLoops(gross)
    ensures forall p :: p in FinalWalk(gross).kept ==> p in Netted(gross)
  {
    var rank := WalkSound(gross);
    assert forall p :: p in FinalWalk(gross).kept ==> Settled(FinalWalk(gross), p);
  }

  /** The result of `analyzeAccountFlows` on the aggregated links. */
  ghost function Analyze(gross: Flows): Analysis
    requires NoSelfLoops(gross)
  {
    var agg := Netted(gross);
    var w := FinalWalk(gross);
    KeptAreNetted(gross);
    Analysis(SortBy(EdgeLe, EdgesOf(agg, w.kept)), DedupeAndSort(AccountAll(agg, w.dropped, w.cycles)))
  }

  // ----- orders

  lemma PairOrder()
    ensures TotalPreorder(PairLe) && Antisymmetric(PairLe)
  {
    forall p, q ensures PairLe(p, q) || PairLe(q, p) {
      StrLeTotal(p.src, q.src);
      StrLeTotal(p.dst, q.dst);
    }
    forall p, q, r | PairLe(p, q) && PairLe(q, r) ensures PairLe(p, r) {
      if p.src != q.src && q.src != r.src {
        StrLeTransitive(p.src, q.src, r.src);
        if p.src == r.src { StrLeAntisymmetric(p.src, q.src); }
      }
      if p.src == q.src == r.src { StrLeTransitive(p.dst, q.dst, r.dst); }
    }
    forall p, q | PairLe(p, q) && PairLe(q, p) ensures p == q {
      if p.src != q.src { StrLeAntisymmetric(p.src, q.src); } else { StrLeAntisymmetric(p.dst, q.dst); }
    }
  }

  // ----- what is drawn

  function DrawnPairs(edges: seq<FlowEdge>): set<Pair> {
    set e | e in edges :: e.pair
  }

  /** What the graph draws between two accounts; nothing reads as no amounts. */
  ghost function DrawnValue(edges: seq<FlowEdge>, p: Pair): Amounts {
    if e :| e in edges && e.pair == p then e.value else map[]
  }

  ghost predicate Acyclic(edges: set<Pair>) {
    forall s: seq<AccountId> :: |s| >= 2 && Consecutive(edges, s) ==> s[0] != s[|s| - 1]
  }

  lemma EdgesMembers(agg: Flows, kept: seq<Pair>)
    requires forall p :: p in kept ==> p in agg
    ensures var edges := SortBy(EdgeLe, EdgesOf(agg, kept));
            && (forall e :: e in edges <==> e.pair in kept && e == FlowEdge(e.pair, agg[e.pair]))
            && |edges| == |kept|
  {
    var listed := EdgesOf(agg, kept);
    SortMembers(EdgeLe, listed);
    forall e ensures e in listed <==> e.pair in kept && e == FlowEdge(e.pair, agg[e.pair]) {
      if e.pair in kept && e == FlowEdge(e.pair, agg[e.pair]) {
        var i :| 0 <= i < |kept| && kept[i] == e.pair;
        assert listed[i] == e;
      }
    }
  }

  /** The drawn edges are the kept ones with their netted values, each once. */
  lemma DrawnAre(gross: Flows)
    requires NoSelfLoops(gross)
    ensures var a, w, agg := Analyze(gross), FinalWalk(gross), Netted(gross);
            && (forall p :: p in DrawnPairs(a.edges) <==> p in w.kept)
            && (forall p :: p in w.kept ==> p in agg && DrawnValue(a.edges, p) == agg[p])
            && (forall p :: p !in w.kept ==> DrawnValue(a.edges, p) == map[])
            && (forall e :: e in a.edges ==> e.pair in agg && e.value == agg[e.pair])
  {
    KeptAreNetted(gross);
    var a, w, agg := Analyze(gross), FinalWalk(gross), Netted(gross);
    EdgesMembers(agg, w.kept);
    forall p | p in w.kept ensures p in DrawnPairs(a.edges) && DrawnValue(a.edges, p) == agg[p] {
      assert FlowEdge(p, agg[p]) in a.edges;
    }
  }

  lemma EdgeOrder()
    ensures TotalPreorder(EdgeLe)
  {
    PairOrder();
    forall x, y ensures EdgeLe(x, y) || EdgeLe(y, x) { assert PairLe(x.pair, y.pair) || PairLe(y.pair, x.pair); }
    forall x, y, z | EdgeLe(x, y) && EdgeLe(y, z)
      ensures EdgeLe(x, z)
    {
      assert PairLe(x.pair, y.pair) && PairLe(y.pair, z.pair);
    }
  }

  lemma SortedEdges(agg: Flows, kept: seq<Pair>)
    requires Distinct(kept) && forall p :: p in kept ==> p in agg
    ensures var edges := SortBy(EdgeLe, EdgesOf(agg, kept));
            Sorted(EdgeLe, edges) && Distinct(edges)
  {
    EdgeOrder();
    SortSorted(EdgeLe, EdgesOf(agg, kept));
    SortDistinct(EdgeLe, EdgesOf(agg, kept));
  }

  lemma KeptDistinct(gross: Flows)
    requires NoSelfLoops(gross)
    ensures Distinct(FinalWalk(gross).kept)
  {
    var rank := WalkSound(gross);
  }

  /** No pair of accounts is drawn twice, and the edges come in pair order. */
  lemma DrawnOnceInOrder(gross: Flows)
    requires NoSelfLoops(gross)
    ensures var edges := Analyze(gross).edges;
            forall i, j :: 0 <= i < j < |edges| ==>
                edges[i].pair != edges[j].pair && PairLe(edges[i].pair, edges[j].pair)
  {
    KeptAreNetted(gross);
    KeptDistinct(gross);
    SortedEdges(Netted(gross), FinalWalk(gross).kept);
    EdgesMembers(Netted(gross), FinalWalk(gross).kept);
    var edges := Analyze(gross).edges;
    forall i, j | 0 <= i < j < |edges| ensures edges[i].pair != edges[j].pair && PairLe(edges[i].pair, edges[j].pair) {
      assert edges[i] in edges && edges[j] in edges;
      assert EdgeLe(edges[i], edges[j]);
    }
  }

  lemma {:induction false} PathDescends(edges: set<Pair>, rank: map<AccountId, nat>, s: seq<AccountId>)
    requires forall p :: p in edges ==> p.src in rank && p.dst in rank && rank[p.dst] < rank[p.src]
    requires |s| >= 2 && Consecutive(edges, s)
    ensures s[0] in rank && s[|s| - 1] in rank && rank[s[|s| - 1]] < rank[s[0]]
  {
    assert Pair(s[0], s[1]) in edges;
    if |s| > 2 {
      PathDescends(edges, rank, s[1..]);
    }
  }

  /** The drawn account graph has no cycle, whatever the links were. */
  lemma DrawnGraphIsAcyclic(gross: Flows)
    requires NoSelfLoops(gross)
    ensures Acyclic(DrawnPairs(Analyze(gross).edges))
  {
    var rank := WalkSound(gross);
    DrawnAre(gross);
    var edges := DrawnPairs(Analyze(gross).edges);
    forall s: seq<AccountId> | |s| >= 2 && Consecutive(edges, s) ensures s[0] != s[|s| - 1] {
      PathDescends(edges, rank, s);
    }
  }

  lemma LoopCloses(edges: set<Pair>, nodes: seq<AccountId>)
    requires |nodes| >= 2 && Consecutive(edges, nodes)
    ensures !Acyclic(edges + {Closing(nodes)})
  {
    var round := nodes + [nodes[0]];
    assert Consecutive(edges + {Closing(nodes)}, round);
    assert |round| >= 2 && round[0] == round[|round| - 1];
  }

  lemma DroppedLoop(gross: Flows, p: Pair) returns (i: nat)
    requires NoSelfLoops(gross) && p in FinalWalk(gross).dropped
    ensures var w := FinalWalk(gross);
            i < |w.cycles| && LoopOk(Graph(gross, Netted(gross)), w, w.cycles[i]) && Closing(w.cycles[i].nodes) == p
  {
    var rank := WalkSound(gross);
    var w := FinalWalk(gross);
    assert HasLoop(w.cycles, p);
    i :| 0 <= i < |w.cycles| && w.cycles[i].kind == Loop && |w.cycles[i].nodes| >= 2 && Closing(w.cycles[i].nodes) == p;
  }

  lemma UndrawnIsDropped(gross: Flows, p: Pair)
    requires NoSelfLoops(gross) && p in Netted(gross)
    requires p !in DrawnPairs(Analyze(gross).edges)
    ensures p in FinalWalk(gross).dropped
  {
    var rank := WalkSound(gross);
    assert Settled(FinalWalk(gross), p);
    DrawnAre(gross);
  }

  /** The break removes nothing it could have kept: putting any undrawn netted
      edge back closes a loop of drawn edges. */
  lemma DroppedEdgesCloseLoops(gross: Flows, p: Pair)
    requires NoSelfLoops(gross) && p in Netted(gross)
    requires p !in DrawnPairs(Analyze(gross).edges)
    ensures !Acyclic(DrawnPairs(Analyze(gross).edges) + {p})
  {
    UndrawnIsDropped(gross, p);
    var i := DroppedLoop(gross, p);
    DrawnAre(gross);
    LoopCloses(DrawnPairs(Analyze(gross).edges), FinalWalk(gross).cycles[i].nodes);
  }
}
