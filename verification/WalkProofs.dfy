/** What the depth-first walk keeps true, from one step to whole runs. */
module WalkProofs {
  import opened Options
  import opened Ordering
  import opened Currency
  import opened AccountGraph

  predicate Settled(w: Walk, p: Pair) { p in w.kept || p in w.dropped }

  function Closing(nodes: seq<AccountId>): Pair
    requires nodes != []
  {
    Pair(nodes[|nodes| - 1], nodes[0])
  }

  /** A loop as the walk records it: kept edges along the stack and one dropped
      edge that closes it, every leg carrying its gross flow. */
  ghost predicate LoopOk(g: Graph, w: Walk, c: Cycle) {
    && c.kind == Loop && |c.nodes| >= 2
    && (forall i, j :: 0 <= i < j < |c.nodes| && j == i + 1 ==> Pair(c.nodes[i], c.nodes[j]) in w.kept)
    && Closing(c.nodes) in w.dropped
    && Consecutive(g.gross.Keys, c.nodes) && Closing(c.nodes) in g.gross
    && c.legs == LoopLegs(g.gross, c.nodes, g.gross[Closing(c.nodes)])
  }

  ghost predicate HasLoop(cs: seq<Cycle>, p: Pair) {
    exists i :: 0 <= i < |cs| && cs[i].kind == Loop && |cs[i].nodes| >= 2 && Closing(cs[i].nodes) == p
  }

  ghost predicate Colours(g: Graph, w: Walk) {
    && w.state.Keys <= Nodes(g)
    && (forall x :: x in w.state ==> w.state[x] == 1 || w.state[x] == 2)
    && (forall x :: x in w.stack <==> x in w.state && w.state[x] == 1)
    && Distinct(w.stack)
  }

  ghost predicate EdgesOk(g: Graph, w: Walk) {
    && (forall p :: Settled(w, p) ==> p in g.agg && p.src in w.state)
    && (forall p :: p in w.kept ==> p !in w.dropped)
    && Distinct(w.kept)
    && (forall p :: p in g.agg && StateOf(w, p.src) == 2 ==> Settled(w, p))
  }

  ghost predicate StackPath(w: Walk) {
    forall i, j :: 0 <= i < j < |w.stack| && j == i + 1 ==> Pair(w.stack[i], w.stack[j]) in w.kept
  }

  /** Finished accounts ranked by finishing order: kept edges go down. */
  ghost predicate Ranked(w: Walk, rank: map<AccountId, nat>) {
    && (forall x :: x in rank <==> StateOf(w, x) == 2)
    && (forall x :: x in rank ==> rank[x] < |rank|)
    && (forall p :: p in w.kept && p.src in rank ==> p.dst in rank && rank[p.dst] < rank[p.src])
  }

  ghost predicate CyclesOk(g: Graph, w: Walk) {
    && (forall i :: 0 <= i < |w.cycles| && w.cycles[i].kind == Loop ==> LoopOk(g, w, w.cycles[i]))
    && (forall p :: p in w.dropped ==> HasLoop(w.cycles, p))
  }

  ghost predicate Inv(g: Graph, w: Walk, rank: map<AccountId, nat>) {
    Colours(g, w) && EdgesOk(g, w) && StackPath(w) && Ranked(w, rank) && CyclesOk(g, w)
  }

  /** The walk only appends loops to the cycles found so far. */
  ghost predicate Grown(before: seq<Cycle>, after: seq<Cycle>) {
    before <= after && forall i :: |before| <= i < |after| ==> after[i].kind == Loop
  }

  /** What the walk under `u` may change: accounts met before keep their state,
      those met since are done, and only edges of `u` and of newly met accounts
      are settled. */
  ghost predicate Extends(w: Walk, r: Walk, u: AccountId) {
    && w.state.Keys <= r.state.Keys && r.stack == w.stack
    && (forall x :: x in w.state ==> r.state[x] == w.state[x])
    && (forall x :: x in r.state && x !in w.state ==> r.state[x] == 2)
    && (forall p: Pair :: p.src in w.state && p.src != u ==>
         (p in r.kept <==> p in w.kept) && (p in r.dropped <==> p in w.dropped))
    && w.kept <= r.kept && w.dropped <= r.dropped && Grown(w.cycles, r.cycles)
  }

  /** The scan of `u` is at `vs`: exactly the edges to `vs` are still open. */
  ghost predicate Scanning(g: Graph, w: Walk, u: AccountId, vs: seq<AccountId>) {
    && w.stack != [] && w.stack[|w.stack| - 1] == u
    && (forall v :: Pair(u, v) in g.agg ==> (v in vs <==> !Settled(w, Pair(u, v))))
    && (forall v :: v in vs ==> Pair(u, v) in g.agg)
    && Distinct(vs)
    && (forall v :: Pair(u, v) in w.kept ==> StateOf(w, v) == 2)
  }

  lemma ExtendsTrans(w: Walk, m: Walk, r: Walk, u: AccountId)
    requires Extends(w, m, u) && Extends(m, r, u)
    ensures Extends(w, r, u)
  {
  }

  function Entered(w: Walk, u: AccountId): Walk {
    w.(state := w.state[u := 1], stack := w.stack + [u])
  }

  function Left(w: Walk, u: AccountId): Walk
    requires w.stack != []
  {
    w.(state := w.state[u := 2], stack := w.stack[..|w.stack| - 1])
  }

  function Drawn(w: Walk, p: Pair): Walk {
    w.(kept := w.kept + [p])
  }

  // Recorded loops stay loops as more edges are settled.
  lemma LoopsStay(g: Graph, w: Walk, r: Walk)
    requires CyclesOk(g, w) && w.kept <= r.kept && w.dropped == r.dropped && w.cycles == r.cycles
    ensures CyclesOk(g, r)
  {
    forall i | 0 <= i < |r.cycles| && r.cycles[i].kind == Loop ensures LoopOk(g, r, r.cycles[i]) {
      assert LoopOk(g, w, w.cycles[i]);
    }
  }

  // ----- entering an account

  lemma EnterColours(g: Graph, w: Walk, u: AccountId)
    requires u in Nodes(g) && u !in w.state && Colours(g, w)
    ensures Colours(g, Entered(w, u))
  {
  }

  lemma EnterEdges(g: Graph, w: Walk, u: AccountId)
    requires u !in w.state && EdgesOk(g, w)
    ensures EdgesOk(g, Entered(w, u)) && Scanning(g, Entered(w, u), u, Adjacent(g.agg, u))
  {
    AdjacentMembers(g.agg, u);
  }

  lemma EnterRanked(w: Walk, u: AccountId, rank: map<AccountId, nat>)
    requires u !in w.state && Ranked(w, rank)
    ensures Ranked(Entered(w, u), rank)
  {
  }

  lemma EnterStack(w: Walk, u: AccountId)
    requires StackPath(w)
    requires w.stack == [] || Pair(w.stack[|w.stack| - 1], u) in w.kept
    ensures StackPath(Entered(w, u))
  {
  }

  lemma EnterKeeps(g: Graph, w: Walk, u: AccountId, rank: map<AccountId, nat>)
    requires GraphOk(g) && u in Nodes(g) && u !in w.state && Inv(g, w, rank)
    requires w.stack == [] || Pair(w.stack[|w.stack| - 1], u) in w.kept
    ensures Inv(g, Entered(w, u), rank)
  {
    EnterColours(g, w, u);
    EnterEdges(g, w, u);
    EnterRanked(w, u, rank);
    EnterStack(w, u);
    LoopsStay(g, w, Entered(w, u));
  }

  // ----- leaving an account

  lemma LeaveColours(g: Graph, w: Walk, u: AccountId)
    requires Colours(g, w) && w.stack != [] && w.stack[|w.stack| - 1] == u
    ensures Colours(g, Left(w, u)) && StateOf(w, u) == 1
  {
    assert u in w.stack;
  }

  lemma LeaveEdges(g: Graph, w: Walk, u: AccountId)
    requires EdgesOk(g, w) && Scanning(g, w, u, []) && StateOf(w, u) == 1
    ensures EdgesOk(g, Left(w, u))
  {
    var r := Left(w, u);
    forall p | p in g.agg && StateOf(r, p.src) == 2 ensures Settled(r, p) {
      if p.src == u {
        assert p == Pair(u, p.dst);
        assert Settled(w, p);
      } else {
        assert Settled(w, p);
      }
    }
  }

  lemma LeaveRanked(w: Walk, u: AccountId, rank: map<AccountId, nat>)
    requires Ranked(w, rank) && w.stack != [] && StateOf(w, u) == 1
    requires forall v :: Pair(u, v) in w.kept ==> StateOf(w, v) == 2
    ensures Ranked(Left(w, u), rank[u := |rank|])
  {
    var r, rank' := Left(w, u), rank[u := |rank|];
    assert |rank'| == |rank| + 1;
    forall p | p in r.kept && p.src in rank' ensures p.dst in rank' && rank'[p.dst] < rank'[p.src] {
      if p.src == u {
        assert p == Pair(u, p.dst);
      }
    }
  }

  lemma LeaveStack(w: Walk, u: AccountId)
    requires StackPath(w) && w.stack != []
    ensures StackPath(Left(w, u))
  {
  }

  lemma LeaveKeeps(g: Graph, w: Walk, u: AccountId, rank: map<AccountId, nat>)
    requires Inv(g, w, rank) && Scanning(g, w, u, [])
    ensures Inv(g, Left(w, u), rank[u := |rank|])
  {
    LeaveColours(g, w, u);
    LeaveEdges(g, w, u);
    LeaveRanked(w, u, rank);
    LeaveStack(w, u);
    LoopsStay(g, w, Left(w, u));
  }

  // ----- keeping an edge

  lemma DrawEdges(g: Graph, w: Walk, p: Pair)
    requires EdgesOk(g, w) && p in g.agg && p.src in w.state && !Settled(w, p)
    ensures EdgesOk(g, Drawn(w, p))
  {
    var r := Drawn(w, p);
    assert forall q :: q in r.kept <==> q in w.kept || q == p;
    assert forall q :: Settled(r, q) <==> Settled(w, q) || q == p;
  }

  lemma DrawRanked(w: Walk, p: Pair, rank: map<AccountId, nat>)
    requires Ranked(w, rank) && StateOf(w, p.src) == 1
    ensures Ranked(Drawn(w, p), rank)
  {
    var r := Drawn(w, p);
    assert forall q :: q in r.kept <==> q in w.kept || q == p;
  }

  lemma DrawStack(w: Walk, p: Pair)
    requires StackPath(w)
    ensures StackPath(Drawn(w, p))
  {
    var r := Drawn(w, p);
    assert forall q :: q in r.kept <==> q in w.kept || q == p;
  }

  lemma DrawKeeps(g: Graph, w: Walk, p: Pair, rank: map<AccountId, nat>)
    requires Inv(g, w, rank) && p in g.agg && StateOf(w, p.src) == 1 && !Settled(w, p)
    ensures Inv(g, Drawn(w, p), rank)
  {
    var r := Drawn(w, p);
    assert Colours(g, r);
    DrawEdges(g, w, p);
    DrawRanked(w, p, rank);
    DrawStack(w, p);
    LoopsStay(g, w, r);
  }

  // ----- one step of the scan

  // The edge the scan is at leaves the top of the stack and is open.
  lemma AtEdge(g: Graph, w: Walk, u: AccountId, vs: seq<AccountId>)
    requires Colours(g, w) && vs != [] && Scanning(g, w, u, vs)
    ensures StateOf(w, u) == 1 && Pair(u, vs[0]) in g.agg && !Settled(w, Pair(u, vs[0]))
    ensures vs[0] in Nodes(g)
  {
    assert u in w.stack && vs[0] in vs;
    assert Pair(u, vs[0]).dst == vs[0];
  }

  // Settling the edge to `vs[0]` moves the scan of `u` on by one.
  lemma ScanMoves(g: Graph, w: Walk, r: Walk, u: AccountId, vs: seq<AccountId>)
    requires vs != [] && Scanning(g, w, u, vs) && r.stack == w.stack
    requires forall v :: Settled(r, Pair(u, v)) <==> Settled(w, Pair(u, v)) || v == vs[0]
    requires forall v :: Pair(u, v) in r.kept ==> StateOf(r, v) == 2
    ensures Scanning(g, r, u, vs[1..])
  {
    forall v ensures v in vs[1..] <==> v in vs && v != vs[0] { TailMembers(vs, v); }
  }

  // An edge to a finished account, or to one whose visit has just ended.
  lemma KeptMoves(g: Graph, w: Walk, r: Walk, u: AccountId, vs: seq<AccountId>)
    requires vs != [] && u in w.state && Scanning(g, w, u, vs) && StateOf(r, vs[0]) == 2
    requires r == Drawn(w, Pair(u, vs[0])) || (vs[0] !in w.state && Extends(Drawn(w, Pair(u, vs[0])), r, vs[0]))
    ensures Scanning(g, r, u, vs[1..]) && Extends(w, r, u)
  {
    var v, drawn := vs[0], Drawn(w, Pair(u, vs[0]));
    assert forall q :: q in drawn.kept <==> q in w.kept || q == Pair(u, v);
    forall x ensures Pair(u, x) in r.kept <==> Pair(u, x) in w.kept || x == v {
      assert Pair(u, x).src == u;
    }
    forall x ensures Settled(r, Pair(u, x)) <==> Settled(w, Pair(u, x)) || x == v {
      assert Pair(u, x).src == u;
    }
    ScanMoves(g, w, r, u, vs);
  }

  lemma VisitIs(g: Graph, w: Walk, u: AccountId)
    requires GraphOk(g) && u in Nodes(g) && u !in w.state
    ensures forall v :: v in Adjacent(g.agg, u) ==> Pair(u, v) in g.agg
    ensures Visit(g, w, u) == Left(Scan(g, Entered(w, u), u, Adjacent(g.agg, u)), u)
  {
    AdjacentMembers(g.agg, u);
  }

  lemma LeaveExtends(w: Walk, r: Walk, u: AccountId)
    requires u !in w.state && Extends(Entered(w, u), r, u)
    ensures Extends(w, Left(r, u), u)
  {
  }

  lemma DropEdges(g: Graph, w: Walk, p: Pair)
    requires EdgesOk(g, w) && p in g.agg && p in g.gross && p.src in w.state && !Settled(w, p)
    ensures EdgesOk(g, Drop(g, w, p))
  {
    assert forall q :: Settled(Drop(g, w, p), q) <==> Settled(w, q) || q == p;
  }

  lemma DropRest(g: Graph, w: Walk, p: Pair, rank: map<AccountId, nat>)
    requires p in g.gross && Colours(g, w) && StackPath(w) && Ranked(w, rank)
    ensures Colours(g, Drop(g, w, p)) && StackPath(Drop(g, w, p)) && Ranked(Drop(g, w, p), rank)
    ensures Extends(w, Drop(g, w, p), p.src)
  {
  }

  /** The stack from the account a back edge points at is a loop. */
  lemma StackLoop(g: Graph, w: Walk, p: Pair)
    requires GraphOk(g) && Colours(g, w) && EdgesOk(g, w) && StackPath(w)
    requires w.stack != [] && w.stack[|w.stack| - 1] == p.src && StateOf(w, p.dst) == 1 && p in g.agg
    ensures var c := FlowStackCycle(g.gross, w.stack, p.dst, g.gross[p]);
            c.Some? && Closing(c.value.nodes) == p
    ensures LoopOk(g, w.(dropped := w.dropped + {p}), FlowStackCycle(g.gross, w.stack, p.dst, g.gross[p]).value)
  {
    assert p.dst in w.stack;
    var start := IndexOf(w.stack, p.dst);
    var nodes := w.stack[start..];
    assert p.src != p.dst;
    assert nodes[|nodes| - 1] == p.src && nodes[0] == p.dst;
    forall i, j | 0 <= i < j < |nodes| && j == i + 1
      ensures Pair(nodes[i], nodes[j]) in w.kept && Pair(nodes[i], nodes[j]) in g.gross
    {
      assert Pair(w.stack[start + i], w.stack[start + j]) in w.kept;
      assert Settled(w, Pair(nodes[i], nodes[j]));
    }
  }

  lemma DropCycles(g: Graph, w: Walk, p: Pair)
    requires GraphOk(g) && Colours(g, w) && EdgesOk(g, w) && StackPath(w) && CyclesOk(g, w)
    requires w.stack != [] && w.stack[|w.stack| - 1] == p.src && StateOf(w, p.dst) == 1 && p in g.agg
    ensures CyclesOk(g, Drop(g, w, p))
  {
    var r := Drop(g, w, p);
    StackLoop(g, w, p);
    var c := FlowStackCycle(g.gross, w.stack, p.dst, g.gross[p]).value;
    assert r.cycles == w.cycles + [c];
    forall i | 0 <= i < |r.cycles| && r.cycles[i].kind == Loop ensures LoopOk(g, r, r.cycles[i]) {
      if i < |w.cycles| { assert LoopOk(g, w, w.cycles[i]); }
    }
    forall q | q in r.dropped ensures HasLoop(r.cycles, q) {
      if q == p {
        assert r.cycles[|w.cycles|] == c;
      } else {
        assert HasLoop(w.cycles, q);
        var i :| 0 <= i < |w.cycles| && w.cycles[i].kind == Loop && |w.cycles[i].nodes| >= 2
            && Closing(w.cycles[i].nodes) == q;
        assert r.cycles[i] == w.cycles[i];
      }
    }
  }

  lemma DropKeeps(g: Graph, w: Walk, u: AccountId, vs: seq<AccountId>, rank: map<AccountId, nat>)
    requires GraphOk(g) && Inv(g, w, rank) && vs != [] && Scanning(g, w, u, vs)
    requires StateOf(w, vs[0]) == 1
    ensures Pair(u, vs[0]) in g.agg
    ensures Inv(g, Drop(g, w, Pair(u, vs[0])), rank)
    ensures Scanning(g, Drop(g, w, Pair(u, vs[0])), u, vs[1..])
    ensures Extends(w, Drop(g, w, Pair(u, vs[0])), u)
  {
    AtEdge(g, w, u, vs);
    var p := Pair(u, vs[0]);
    DropRest(g, w, p, rank);
    DropEdges(g, w, p);
    DropCycles(g, w, p);
    ScanMoves(g, w, Drop(g, w, p), u, vs);
  }

  // What the scan goes on from after the edge it is at.
  ghost function Next(g: Graph, w: Walk, u: AccountId, v: AccountId): Walk
    requires GraphOk(g) && u in w.state && Pair(u, v) in g.agg
  {
    if StateOf(w, v) == 1 then Drop(g, w, Pair(u, v))
    else if v in w.state then Drawn(w, Pair(u, v))
    else Visit(g, Drawn(w, Pair(u, v)), v)
  }

  lemma ScanStep(g: Graph, w: Walk, u: AccountId, vs: seq<AccountId>)
    requires GraphOk(g) && u in w.state && vs != [] && forall v :: v in vs ==> Pair(u, v) in g.agg
    ensures var next := Next(g, w, u, vs[0]); u in next.state && Scan(g, w, u, vs) == Scan(g, next, u, vs[1..])
  {
  }

  // The edge leads to an account that is done.
  lemma DrawStepKeeps(g: Graph, w: Walk, u: AccountId, vs: seq<AccountId>, rank: map<AccountId, nat>)
    requires GraphOk(g) && u in w.state && Inv(g, w, rank) && vs != [] && Scanning(g, w, u, vs)
    requires StateOf(w, vs[0]) != 1 && vs[0] in w.state && Pair(u, vs[0]) in g.agg
    ensures var next := Drawn(w, Pair(u, vs[0]));
            Inv(g, next, rank) && Scanning(g, next, u, vs[1..]) && Extends(w, next, u)
  {
    AtEdge(g, w, u, vs);
    DrawKeeps(g, w, Pair(u, vs[0]), rank);
    KeptMoves(g, w, Drawn(w, Pair(u, vs[0])), u, vs);
  }

  // The edge leads to an account not met before, which is visited first.
  lemma {:induction false} VisitStepKeeps(g: Graph, w: Walk, u: AccountId, vs: seq<AccountId>, rank: map<AccountId,
                                          nat>)
    returns (rank': map<AccountId, nat>)
    requires GraphOk(g) && u in w.state && Inv(g, w, rank) && vs != [] && Scanning(g, w, u, vs)
    requires vs[0] !in w.state && vs[0] in Nodes(g)
    ensures var next := Visit(g, Drawn(w, Pair(u, vs[0])), vs[0]);
            Inv(g, next, rank') && Scanning(g, next, u, vs[1..]) && Extends(w, next, u)
    decreases Nodes(g) - w.state.Keys, |vs|, 0
  {
    AtEdge(g, w, u, vs);
    DrawKeeps(g, w, Pair(u, vs[0]), rank);
    rank' := VisitKeeps(g, Drawn(w, Pair(u, vs[0])), vs[0], rank);
    KeptMoves(g, w, Visit(g, Drawn(w, Pair(u, vs[0])), vs[0]), u, vs);
  }

  lemma {:induction false} StepKeeps(g: Graph, w: Walk, u: AccountId, vs: seq<AccountId>, rank: map<AccountId, nat>)
    returns (rank': map<AccountId, nat>)
    requires GraphOk(g) && u in w.state && Inv(g, w, rank) && vs != [] && Scanning(g, w, u, vs)
    ensures var next := Next(g, w, u, vs[0]);
            Inv(g, next, rank') && Scanning(g, next, u, vs[1..]) && Extends(w, next, u)
    decreases Nodes(g) - w.state.Keys, |vs|, 1
  {
    AtEdge(g, w, u, vs);
    rank' := rank;
    if StateOf(w, vs[0]) == 1 {
      DropKeeps(g, w, u, vs, rank);
    } else if vs[0] in w.state {
      DrawStepKeeps(g, w, u, vs, rank);
    } else {
      rank' := VisitStepKeeps(g, w, u, vs, rank);
    }
  }

  lemma {:induction false} ScanKeeps(g: Graph, w: Walk, u: AccountId, vs: seq<AccountId>, rank: map<AccountId, nat>)
    returns (rank': map<AccountId, nat>)
    requires GraphOk(g) && u in w.state && Inv(g, w, rank) && Scanning(g, w, u, vs)
    ensures Inv(g, Scan(g, w, u, vs), rank') && Scanning(g, Scan(g, w, u, vs), u, [])
    ensures Extends(w, Scan(g, w, u, vs), u)
    decreases Nodes(g) - w.state.Keys, |vs|, 2
  {
    if vs == [] {
      rank' := rank;
    } else {
      ScanStep(g, w, u, vs);
      var next := Next(g, w, u, vs[0]);
      rank' := StepKeeps(g, w, u, vs, rank);
      rank' := ScanKeeps(g, next, u, vs[1..], rank');
      ExtendsTrans(w, next, Scan(g, next, u, vs[1..]), u);
    }
  }

  lemma {:induction false} VisitKeeps(g: Graph, w: Walk, u: AccountId, rank: map<AccountId, nat>)
    returns (rank': map<AccountId, nat>)
    requires GraphOk(g) && u in Nodes(g) && u !in w.state && Inv(g, w, rank)
    requires w.stack == [] || Pair(w.stack[|w.stack| - 1], u) in w.kept
    ensures Inv(g, Visit(g, w, u), rank') && Extends(w, Visit(g, w, u), u)
    ensures Visit(g, w, u).state[u] == 2
    decreases Nodes(g) - w.state.Keys, 0, 0
  {
    EnterKeeps(g, w, u, rank);
    EnterEdges(g, w, u);
    VisitIs(g, w, u);
    var vs := Adjacent(g.agg, u);
    var r := Scan(g, Entered(w, u), u, vs);
    rank' := ScanKeeps(g, Entered(w, u), u, vs, rank);
    LeaveKeeps(g, r, u, rank');
    rank' := rank'[u := |rank'|];
    LeaveExtends(w, r, u);
  }
}
