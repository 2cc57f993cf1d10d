/** Every amount the account graph does not draw is reported. */
module FlowAccounting {
  import opened Ordering
  import opened Currency
  import opened AccountGraph
  import opened WalkProofs
  import opened FlowTheorems

  /** Account ids are UUID text: none holds the separator of the loop keys. */
  predicate PlainIds(gross: Flows) {
    forall p :: p in gross ==> '|' !in p.src && '|' !in p.dst
  }

  function LegPair(nodes: seq<AccountId>, i: nat): Pair
    requires i < |nodes|
  {
    Pair(nodes[i], if i == |nodes| - 1 then nodes[0] else nodes[i + 1])
  }

  /** A cycle's legs run around its accounts, each with its gross flow. */
  ghost predicate CycleOk(gross: Flows, c: Cycle) {
    && |c.nodes| >= 2 && |c.legs| == |c.nodes|
    && forall i :: 0 <= i < |c.legs| ==>
         && c.legs[i].pair == LegPair(c.nodes, i)
         && c.legs[i].pair in gross && c.legs[i].value == gross[c.legs[i].pair]
  }

  ghost predicate HasLeg(c: Cycle, p: Pair) {
    exists i :: 0 <= i < |c.legs| && c.legs[i].pair == p
  }

  // ----- the cycles before de-duplication

  lemma CyclesSound(gross: Flows)
    requires NoSelfLoops(gross)
    ensures CyclesOk(Graph(gross, Netted(gross)), FinalWalk(gross))
    ensures Grown(Reciprocals(gross, SortSet(PairLe, gross.Keys)), FinalWalk(gross).cycles)
  {
    var rank := WalkSound(gross);
  }

  lemma LoopIsCycle(gross: Flows, w: Walk, c: Cycle)
    requires LoopOk(Graph(gross, Netted(gross)), w, c)
    ensures CycleOk(gross, c)
  {
    forall i | 0 <= i < |c.legs|
      ensures c.legs[i].pair == LegPair(c.nodes, i)
      ensures c.legs[i].pair in gross && c.legs[i].value == gross[c.legs[i].pair]
    {
      if i < |c.nodes| - 1 {
        assert Pair(c.nodes[i], c.nodes[i + 1]) in gross;
      }
    }
  }

  lemma WalkCycleOk(gross: Flows, i: nat)
    requires NoSelfLoops(gross) && i < |FinalWalk(gross).cycles|
    ensures var w, c := FinalWalk(gross), FinalWalk(gross).cycles[i];
            && CycleOk(gross, c)
            && (c.kind == Loop ==> LoopOk(Graph(gross, Netted(gross)), w, c))
            && (c.kind == Reciprocal ==> |c.nodes| == 2)
  {
    CyclesSound(gross);
    var w, c := FinalWalk(gross), FinalWalk(gross).cycles[i];
    var keys := SortSet(PairLe, gross.Keys);
    if c.kind == Loop {
      LoopIsCycle(gross, w, c);
    } else {
      ReciprocalsAre(gross, keys);
      assert c == Reciprocals(gross, keys)[i];
      assert IsReciprocal(gross, keys, c);
    }
  }

  // ----- de-duplication

  lemma {:induction false} DedupeSpec(cs: seq<Cycle>)
    ensures forall c :: c in Dedupe(cs) ==> c in cs
    ensures forall i, j :: 0 <= i < j < |Dedupe(cs)| ==> CycleKey(Dedupe(cs)[i]) != CycleKey(Dedupe(cs)[j])
  {
    if cs != [] {
      var c, init := cs[|cs| - 1], cs[..|cs| - 1];
      DedupeSpec(init);
      assert forall d :: d in init ==> d in cs;
      if Dedupe(cs) != Dedupe(init) {
        assert Dedupe(cs) == Dedupe(init) + [c];
        forall i | 0 <= i < |Dedupe(init)| ensures CycleKey(Dedupe(init)[i]) != CycleKey(c) {
          assert Dedupe(init)[i] in init;
          var k :| 0 <= k < |init| && init[k] == Dedupe(init)[i];
          assert cs[k] == init[k];
        }
      }
    }
  }

  // The first cycle with a key survives.
  lemma {:induction false} FirstSurvives(cs: seq<Cycle>, k: nat)
    requires k < |cs| && forall j :: 0 <= j < k ==> CycleKey(cs[j]) != CycleKey(cs[k])
    ensures cs[k] in Dedupe(cs)
  {
    if k < |cs| - 1 {
      FirstSurvives(cs[..|cs| - 1], k);
    }
  }

  lemma {:induction false} SurvivorOf(cs: seq<Cycle>, i: nat) returns (k: nat)
    requires i < |cs|
    ensures k <= i && CycleKey(cs[k]) == CycleKey(cs[i]) && cs[k] in Dedupe(cs)
  {
    k := i;
    if j :| 0 <= j < i && CycleKey(cs[j]) == CycleKey(cs[i]) {
      k := SurvivorOf(cs, j);
    } else {
      FirstSurvives(cs, i);
    }
  }

  predicate PlainNodes(c: Cycle) {
    c.nodes != [] && forall x :: x in c.nodes ==> '|' !in x
  }

  /** One key, one set of participants. */
  lemma SameKeySameNodes(c: Cycle, d: Cycle)
    requires PlainNodes(c) && PlainNodes(d) && CycleKey(c) == CycleKey(d)
    ensures multiset(c.nodes) == multiset(d.nodes)
  {
    SortMembers(StrLe, c.nodes);
    SortMembers(StrLe, d.nodes);
    SortMultiset(StrLe, c.nodes);
    SortMultiset(StrLe, d.nodes);
    JoinInjective(SortBy(StrLe, c.nodes), SortBy(StrLe, d.nodes));
  }

  lemma CyclePlain(gross: Flows, c: Cycle)
    requires PlainIds(gross) && CycleOk(gross, c)
    ensures PlainNodes(c)
  {
    forall x | x in c.nodes ensures '|' !in x {
      var i :| 0 <= i < |c.nodes| && c.nodes[i] == x;
      assert c.legs[i].pair.src == x;
    }
  }

  /** A cycle between two accounts has a leg each way. */
  /** The cycle's legs are the pair and its reverse. */
  predicate IsBothWays(c: Cycle, p: Pair) {
    |c.legs| == 2 && {c.legs[0].pair, c.legs[1].pair} == {p, Reverse(p)}
  }

  lemma TwoNodesBothWays(gross: Flows, c: Cycle, p: Pair)
    requires CycleOk(gross, c) && multiset(c.nodes) == multiset([p.src, p.dst])
    ensures HasLeg(c, p) && IsBothWays(c, p)
  {
    assert |multiset(c.nodes)| == |c.nodes| == 2;
    assert c.nodes == [c.nodes[0], c.nodes[1]];
    assert c.legs[0].pair == Pair(c.nodes[0], c.nodes[1]) && c.legs[1].pair == Pair(c.nodes[1], c.nodes[0]);
    assert c.nodes[0] in multiset([p.src, p.dst]);
    assert p.src in multiset(c.nodes) && p.dst in multiset(c.nodes);
    if c.nodes[0] == p.src {
      assert multiset(c.nodes) - multiset([p.src]) == multiset([c.nodes[1]]);
      assert multiset([p.src, p.dst]) - multiset([p.src]) == multiset([p.dst]);
      assert p.dst in multiset([c.nodes[1]]);
    } else {
      assert multiset(c.nodes) - multiset([p.dst]) == multiset([c.nodes[1]]);
      assert multiset([p.src, p.dst]) - multiset([p.dst]) == multiset([p.src]);
      assert p.src in multiset([c.nodes[1]]);
    }
  }

  ghost predicate Descends(rank: map<AccountId, nat>, s: seq<AccountId>) {
    && (forall x :: x in s ==> x in rank)
    && forall i, j :: 0 <= i < j < |s| ==> rank[s[i]] > rank[s[j]]
  }

  lemma {:induction false} ConsecutiveDescends(edges: seq<Pair>, rank: map<AccountId, nat>, s: seq<AccountId>)
    requires forall p :: p in edges ==> p.src in rank && p.dst in rank && rank[p.dst] < rank[p.src]
    requires |s| >= 2 && forall i, j :: 0 <= i < j < |s| && j == i + 1 ==> Pair(s[i], s[j]) in edges
    ensures Descends(rank, s)
  {
    assert Pair(s[0], s[1]) in edges;
    if |s| > 2 {
      ConsecutiveDescends(edges, rank, s[1..]);
    }
    assert s == [s[0]] + s[1..];
  }

  lemma DescentTail(rank: map<AccountId, nat>, s: seq<AccountId>)
    requires s != [] && Descends(rank, s)
    ensures Descends(rank, s[1..]) && forall x :: x in s[1..] <==> x in s && x != s[0]
  {
    assert Distinct(s);
    forall x ensures x in s[1..] <==> x in s && x != s[0] { TailMembers(s, x); }
  }

  /** A path of the tree is fixed by its set of vertices. */
  lemma {:induction false} DescentUnique(rank: map<AccountId, nat>, a: seq<AccountId>, b: seq<AccountId>)
    requires Descends(rank, a) && Descends(rank, b) && forall x :: x in a <==> x in b
    ensures a == b
  {
    assert a == [] || a[0] in b;
    assert b == [] || b[0] in a;
    if a != [] {
      var j :| 0 <= j < |b| && b[j] == a[0];
      var k :| 0 <= k < |a| && a[k] == b[0];
      assert a[0] == b[0];
      DescentTail(rank, a);
      DescentTail(rank, b);
      DescentUnique(rank, a[1..], b[1..]);
      assert a == [a[0]] + a[1..] && b == [b[0]] + b[1..];
    }
  }

  lemma KeptRank(gross: Flows) returns (rank: map<AccountId, nat>)
    requires NoSelfLoops(gross)
    ensures forall p :: p in FinalWalk(gross).kept ==> p.src in rank && p.dst in rank && rank[p.dst] < rank[p.src]
  {
    rank := WalkSound(gross);
  }

  lemma LoopsAgree(gross: Flows, c: Cycle, d: Cycle)
    requires NoSelfLoops(gross) && multiset(c.nodes) == multiset(d.nodes)
    requires LoopOk(Graph(gross, Netted(gross)), FinalWalk(gross), c)
    requires LoopOk(Graph(gross, Netted(gross)), FinalWalk(gross), d)
    ensures c.nodes == d.nodes
  {
    var rank := KeptRank(gross);
    ConsecutiveDescends(FinalWalk(gross).kept, rank, c.nodes);
    ConsecutiveDescends(FinalWalk(gross).kept, rank, d.nodes);
    forall x ensures x in c.nodes <==> x in d.nodes {
      assert x in multiset(c.nodes) <==> x in multiset(d.nodes);
    }
    DescentUnique(rank, c.nodes, d.nodes);
  }

  lemma ClosingIsALeg(gross: Flows, c: Cycle)
    requires CycleOk(gross, c)
    ensures HasLeg(c, Closing(c.nodes))
  {
    assert c.legs[|c.legs| - 1].pair == Closing(c.nodes);
  }

  lemma TwoNodesClosing(gross: Flows, c: Cycle, d: Cycle)
    requires CycleOk(gross, d) && |c.nodes| == 2 && multiset(c.nodes) == multiset(d.nodes)
    ensures HasLeg(d, Closing(c.nodes))
  {
    assert c.nodes == [c.nodes[0], c.nodes[1]];
    assert multiset([c.nodes[1], c.nodes[0]]) == multiset(c.nodes);
    TwoNodesBothWays(gross, d, Closing(c.nodes));
  }

  /** Whatever loop stands for a dropped edge's loop after de-duplication has
      that edge as a leg. */
  lemma SameKeyHasClosing(gross: Flows, i: nat, k: nat)
    requires NoSelfLoops(gross) && PlainIds(gross)
    requires i < |FinalWalk(gross).cycles| && k < |FinalWalk(gross).cycles|
    requires FinalWalk(gross).cycles[i].kind == Loop && |FinalWalk(gross).cycles[i].nodes| >= 2
    requires CycleKey(FinalWalk(gross).cycles[i]) == CycleKey(FinalWalk(gross).cycles[k])
    ensures HasLeg(FinalWalk(gross).cycles[k], Closing(FinalWalk(gross).cycles[i].nodes))
  {
    var c, d := FinalWalk(gross).cycles[i], FinalWalk(gross).cycles[k];
    WalkCycleOk(gross, i);
    WalkCycleOk(gross, k);
    CyclePlain(gross, c);
    CyclePlain(gross, d);
    SameKeySameNodes(c, d);
    assert |multiset(c.nodes)| == |c.nodes| && |multiset(d.nodes)| == |d.nodes|;
    if d.kind == Loop {
      LoopsAgree(gross, c, d);
      ClosingIsALeg(gross, d);
    } else {
      TwoNodesClosing(gross, c, d);
    }
  }

  // ----- the report

  /** A reported cycle is one the walk recorded, with the losses filled in. */
  lemma ReportedFrom(gross: Flows, c: Cycle) returns (i: nat)
    requires NoSelfLoops(gross) && c in Analyze(gross).cycles
    ensures var w := FinalWalk(gross);
            i < |w.cycles| && c == Account(Netted(gross), w.dropped, w.cycles[i])
  {
    var w := FinalWalk(gross);
    var all := AccountAll(Netted(gross), w.dropped, w.cycles);
    SortMembers(CycleLe, Dedupe(all));
    DedupeSpec(all);
    assert c in all;
    i :| 0 <= i < |all| && all[i] == c;
  }

  lemma ShownIsDrawn(gross: Flows, p: Pair)
    requires NoSelfLoops(gross)
    ensures Shown(Netted(gross), FinalWalk(gross).dropped, p) == DrawnValue(Analyze(gross).edges, p)
  {
    var rank := WalkSound(gross);
    DrawnAre(gross);
    var w := FinalWalk(gross);
    assert p in Netted(gross) <==> Settled(w, p);
  }

  /** Every leg of every reported cycle carries what circulated between its two
      accounts and, as discarded, exactly what of it is not drawn. */
  lemma ReportedLegs(gross: Flows, c: Cycle)
    requires NoSelfLoops(gross) && c in Analyze(gross).cycles
    ensures CycleOk(gross, c)
    ensures forall i :: 0 <= i < |c.legs| ==>
              c.legs[i].discarded == Loss(gross[c.legs[i].pair], DrawnValue(Analyze(gross).edges, c.legs[i].pair))
  {
    var k := ReportedFrom(gross, c);
    WalkCycleOk(gross, k);
    var w, agg := FinalWalk(gross), Netted(gross);
    forall p ensures Shown(agg, w.dropped, p) == DrawnValue(Analyze(gross).edges, p) {
      ShownIsDrawn(gross, p);
    }
  }

  /** De-duplication keeps a cycle for each cycle the walk recorded. */
  lemma Represented(gross: Flows, i: nat) returns (k: nat, c: Cycle)
    requires NoSelfLoops(gross) && i < |FinalWalk(gross).cycles|
    ensures var w := FinalWalk(gross);
            && k < |w.cycles| && CycleKey(w.cycles[k]) == CycleKey(w.cycles[i])
            && c in Analyze(gross).cycles && c.nodes == w.cycles[k].nodes
            && forall p :: HasLeg(w.cycles[k], p) ==> HasLeg(c, p)
  {
    var w := FinalWalk(gross);
    var all := AccountAll(Netted(gross), w.dropped, w.cycles);
    k := SurvivorOf(all, i);
    c := all[k];
    SortMembers(CycleLe, Dedupe(all));
    assert CycleKey(all[k]) == CycleKey(w.cycles[k]) && CycleKey(all[i]) == CycleKey(w.cycles[i]);
    forall p | HasLeg(w.cycles[k], p) ensures HasLeg(c, p) {
      var j :| 0 <= j < |w.cycles[k].legs| && w.cycles[k].legs[j].pair == p;
      assert c.legs[j].pair == p;
    }
  }

  lemma RecordedBothWays(gross: Flows, p: Pair) returns (i: nat)
    requires NoSelfLoops(gross) && p in gross && Reverse(p) in gross
    ensures i < |FinalWalk(gross).cycles|
    ensures FinalWalk(gross).cycles[i] in [ReciprocalCycle(gross, p), ReciprocalCycle(gross, Reverse(p))]
  {
    var keys := SortSet(PairLe, gross.Keys);
    PairOrder();
    SortSetSpec(PairLe, gross.Keys);
    var q := if PairLe(p, Reverse(p)) then p else Reverse(p);
    assert PairLe(p, Reverse(p)) || PairLe(Reverse(p), p);
    ReciprocalsAre(gross, keys);
    assert q in keys;
    assert IsReciprocal(gross, keys, ReciprocalCycle(gross, q));
    i :| 0 <= i < |Reciprocals(gross, keys)| && Reciprocals(gross, keys)[i] == ReciprocalCycle(gross, q);
    CyclesSound(gross);
    assert FinalWalk(gross).cycles[i] == ReciprocalCycle(gross, q);
  }

  /** A pair that flows both ways is a leg of a reported cycle. */
  lemma BothWaysReported(gross: Flows, p: Pair) returns (c: Cycle)
    requires NoSelfLoops(gross) && PlainIds(gross) && p in gross && Reverse(p) in gross
    ensures c in Analyze(gross).cycles && HasLeg(c, p) && multiset(c.nodes) == multiset([p.src, p.dst])
  {
    var i := RecordedBothWays(gross, p);
    var k;
    k, c := Represented(gross, i);
    var rc, d := FinalWalk(gross).cycles[i], FinalWalk(gross).cycles[k];
    WalkCycleOk(gross, i);
    WalkCycleOk(gross, k);
    CyclePlain(gross, rc);
    CyclePlain(gross, d);
    SameKeySameNodes(rc, d);
    assert multiset([p.src, p.dst]) == multiset([p.dst, p.src]);
    TwoNodesBothWays(gross, d, p);
  }

  /** An edge the break dropped is a leg of a reported cycle. */
  lemma DroppedReported(gross: Flows, p: Pair) returns (c: Cycle)
    requires NoSelfLoops(gross) && PlainIds(gross) && p in FinalWalk(gross).dropped
    ensures c in Analyze(gross).cycles && HasLeg(c, p)
  {
    var i := DroppedLoop(gross, p);
    var k;
    k, c := Represented(gross, i);
    SameKeyHasClosing(gross, i, k);
  }

  lemma LossAddsUp(gross: Flows, p: Pair)
    requires NoSelfLoops(gross) && p in gross
    ensures var drawn := DrawnValue(Analyze(gross).edges, p);
            forall code :: Get(gross[p], code) == Get(drawn, code) + Get(Loss(gross[p], drawn), code)
  {
    DrawnAre(gross);
    var drawn := DrawnValue(Analyze(gross).edges, p);
    if p in FinalWalk(gross).kept {
      assert drawn == NetValue(gross, p);
    }
    forall code ensures Get(gross[p], code) == Get(drawn, code) + Get(Loss(gross[p], drawn), code) {
      assert code in drawn ==> code in gross[p];
    }
  }

  /** Nothing is hidden silently. Between any two accounts the links moved money
      between, either the gross flow is drawn whole, or the pair is a leg of a
      reported cycle whose discarded amounts and the drawn ones add up, currency
      by currency, to what circulated. */
  lemma NothingHidden(gross: Flows, p: Pair)
    requires NoSelfLoops(gross) && PlainIds(gross) && p in gross
    ensures var a := Analyze(gross);
            || FlowEdge(p, gross[p]) in a.edges
            || exists c, leg :: c in a.cycles && leg in c.legs && leg.pair == p && leg.value == gross[p]
                 && forall code :: Get(gross[p], code) == Get(DrawnValue(a.edges, p), code) + Get(leg.discarded, code)
  {
    var a := Analyze(gross);
    DrawnAre(gross);
    if Reverse(p) !in gross && p in DrawnPairs(a.edges) {
      assert p in FinalWalk(gross).kept;
      var e :| e in a.edges && e.pair == p;
      assert e == FlowEdge(p, gross[p]);
    } else {
      var c;
      if Reverse(p) in gross {
        c := BothWaysReported(gross, p);
      } else {
        assert p in Netted(gross);
        UndrawnIsDropped(gross, p);
        c := DroppedReported(gross, p);
      }
      ReportedLegs(gross, c);
      var i :| 0 <= i < |c.legs| && c.legs[i].pair == p;
      LossAddsUp(gross, p);
      assert c.legs[i] in c.legs;
    }
  }
}
