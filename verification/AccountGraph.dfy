/** The account graph of `money_flow.go`: raw cross-account links, the directed
    flows they add up to, the netting of reciprocal pairs, and the depth-first
    walk that drops back edges. Each algorithm is given here as a function; the
    imperative forms that compute them are in AccountFlows. */
module AccountGraph {
  import opened Options
  import opened Ordering
  import opened Currency

  type AccountId = string

  datatype TxnType = Debit | Credit

  datatype LinkRow = LinkRow(
    fromType: TxnType, toType: TxnType,
    fromAcct: AccountId, toAcct: AccountId,
    currency: string, amount: int)

  datatype Pair = Pair(src: AccountId, dst: AccountId)

  datatype FlowEdge = FlowEdge(pair: Pair, value: Amounts)

  datatype Leg = Leg(pair: Pair, value: Amounts, discarded: Amounts)

  datatype CycleKind = Reciprocal | Loop

  datatype Cycle = Cycle(kind: CycleKind, nodes: seq<AccountId>, legs: seq<Leg>)

  type Flows = map<Pair, Amounts>

  function Reverse(p: Pair): Pair { Pair(p.dst, p.src) }

  predicate NoSelfLoops(flows: Flows) {
    forall p :: p in flows ==> p.src != p.dst
  }

  // ----- aggregation

  /** The directed pair one link contributes: debit side to credit side, or the
      stored orientation when the two sides are of one kind; none when both
      sides are one account. */
  function FlowLinkEnds(r: LinkRow): Option<Pair> {
    var p := if r.fromType == Credit && r.toType == Debit
             then Pair(r.toAcct, r.fromAcct) else Pair(r.fromAcct, r.toAcct);
    if p.src == p.dst then None else Some(p)
  }

  function AddRow(flows: Flows, r: LinkRow): Flows {
    match FlowLinkEnds(r)
    case None => flows
    case Some(p) => flows[p := Add(if p in flows then flows[p] else map[], r.currency, r.amount)]
  }

  /** What circulated between each pair of accounts, before netting. */
  function Gross(rows: seq<LinkRow>): Flows {
    if rows == [] then map[]
    else AddRow(Gross(rows[..|rows| - 1]), rows[|rows| - 1])
  }

  // ----- netting

  function NetFlow(fwd: Amounts, rev: Amounts): Amounts {
    map c | c in fwd && fwd[c] - Get(rev, c) > 0 :: fwd[c] - Get(rev, c)
  }

  function NetValue(gross: Flows, p: Pair): Amounts
    requires p in gross
  {
    if Reverse(p) in gross then NetFlow(gross[p], gross[Reverse(p)]) else gross[p]
  }

  predicate Survives(gross: Flows, p: Pair) {
    p in gross && (Reverse(p) in gross ==> NetValue(gross, p) != map[])
  }

  /** The edges left once every reciprocal pair has been netted. */
  function Netted(gross: Flows): Flows {
    map p | p in gross && Survives(gross, p) :: NetValue(gross, p)
  }

  function ReciprocalCycle(gross: Flows, p: Pair): Cycle
    requires p in gross && Reverse(p) in gross
  {
    Cycle(Reciprocal, [p.src, p.dst],
          [Leg(p, gross[p], map[]), Leg(Reverse(p), gross[Reverse(p)], map[])])
  }

  predicate PairLe(p: Pair, q: Pair) {
    if p.src != q.src then StrLe(p.src, q.src) else StrLe(p.dst, q.dst)
  }

  // The pair that is met first in key order stands for the reciprocal pair.
  predicate Leads(gross: Flows, p: Pair) {
    p in gross && Reverse(p) in gross && PairLe(p, Reverse(p))
  }

  function Reciprocals(gross: Flows, keys: seq<Pair>): seq<Cycle> {
    if keys == [] then []
    else
      var p := keys[|keys| - 1];
      Reciprocals(gross, keys[..|keys| - 1])
      + if Leads(gross, p) then [ReciprocalCycle(gross, p)] else []
  }

  // ----- the depth-first walk

  datatype Graph = Graph(gross: Flows, agg: Flows)

  predicate GraphOk(g: Graph) {
    g.agg.Keys <= g.gross.Keys && NoSelfLoops(g.gross)
  }

  function Nodes(g: Graph): set<AccountId> {
    (set p | p in g.agg :: p.src) + (set p | p in g.agg :: p.dst)
  }

  function Sources(agg: Flows): set<AccountId> {
    set p | p in agg :: p.src
  }

  function Successors(agg: Flows, u: AccountId): set<AccountId> {
    set p | p in agg && p.src == u :: p.dst
  }

  ghost function Adjacent(agg: Flows, u: AccountId): seq<AccountId> {
    SortSet(StrLe, Successors(agg, u))
  }

  /** The variables of the walk: `state` is 1 on the stack and 2 when done. */
  datatype Walk = Walk(
    state: map<AccountId, int>, stack: seq<AccountId>,
    kept: seq<Pair>, dropped: set<Pair>, cycles: seq<Cycle>)

  function StateOf(w: Walk, v: AccountId): int {
    if v in w.state then w.state[v] else 0
  }

  function IndexOf(s: seq<AccountId>, v: AccountId): (i: int)
    ensures -1 <= i < |s|
    ensures i >= 0 ==> s[i] == v && v !in s[..i]
    ensures i < 0 ==> v !in s
  {
    if s == [] then -1
    else if s[0] == v then 0
    else
      var i := IndexOf(s[1..], v);
      if i < 0 then -1 else i + 1
  }

  predicate Consecutive(edges: set<Pair>, s: seq<AccountId>) {
    forall i, j :: 0 <= i < |s| - 1 && j == i + 1 ==> Pair(s[i], s[j]) in edges
  }

  function LoopLegs(gross: Flows, nodes: seq<AccountId>, closing: Amounts): seq<Leg>
    requires Consecutive(gross.Keys, nodes)
  {
    seq(|nodes|, i requires 0 <= i < |nodes| =>
      if i == |nodes| - 1 then Leg(Pair(nodes[i], nodes[0]), closing, map[])
      else Leg(Pair(nodes[i], nodes[i + 1]), gross[Pair(nodes[i], nodes[i + 1])], map[]))
  }

  /** The loop the walk's stack spells out when an edge points back at `v`. */
  function FlowStackCycle(gross: Flows, stack: seq<AccountId>, v: AccountId, closing: Amounts): Option<Cycle> {
    var start := IndexOf(stack, v);
    if start < 0 then None
    else
      var nodes := stack[start..];
      if |nodes| < 2 || !Consecutive(gross.Keys, nodes) then None
      else Some(Cycle(Loop, nodes, LoopLegs(gross, nodes, closing)))
  }

  function Drop(g: Graph, w: Walk, p: Pair): Walk
    requires p in g.gross
  {
    var c := FlowStackCycle(g.gross, w.stack, p.dst, g.gross[p]);
    w.(dropped := w.dropped + {p}, cycles := w.cycles + if c.Some? then [c.value] else [])
  }

  lemma AdjacentMembers(agg: Flows, u: AccountId)
    ensures forall v :: v in Adjacent(agg, u) <==> Pair(u, v) in agg
    ensures Distinct(Adjacent(agg, u))
  {
    StrOrder();
    SortSetSpec(StrLe, Successors(agg, u));
    forall v ensures v in Successors(agg, u) <==> Pair(u, v) in agg {
      if Pair(u, v) in agg { assert Pair(u, v).dst == v; }
    }
  }

  ghost function Scan(g: Graph, w: Walk, u: AccountId, vs: seq<AccountId>): (r: Walk)
    requires GraphOk(g) && u in w.state
    requires forall v :: v in vs ==> Pair(u, v) in g.agg
    ensures w.state.Keys <= r.state.Keys && r.stack == w.stack
    decreases Nodes(g) - w.state.Keys, |vs|
  {
    if vs == [] then w
    else
      var p := Pair(u, vs[0]);
      assert p in g.agg;
      var next :=
        if StateOf(w, vs[0]) == 1 then Drop(g, w, p)
        else
          var drawn := w.(kept := w.kept + [p]);
          if vs[0] !in w.state then Visit(g, drawn, vs[0]) else drawn;
      Scan(g, next, u, vs[1..])
  }

  ghost function Visit(g: Graph, w: Walk, u: AccountId): (r: Walk)
    requires GraphOk(g) && u in Nodes(g) && u !in w.state
    ensures w.state.Keys + {u} <= r.state.Keys && r.stack == w.stack
    decreases Nodes(g) - w.state.Keys, 0
  {
    var entered := w.(state := w.state[u := 1], stack := w.stack + [u]);
    AdjacentMembers(g.agg, u);
    var scanned := Scan(g, entered, u, Adjacent(g.agg, u));
    scanned.(state := scanned.state[u := 2], stack := scanned.stack[..|scanned.stack| - 1])
  }

  ghost function WalkFrom(g: Graph, w: Walk, roots: seq<AccountId>): Walk
    requires GraphOk(g) && forall u :: u in roots ==> u in Nodes(g)
  {
    if roots == [] then w
    else
      var u := roots[|roots| - 1];
      var before := WalkFrom(g, w, roots[..|roots| - 1]);
      if u in before.state then before else Visit(g, before, u)
  }

  // ----- the report of what was hidden

  /** A leg's loss: its gross flow minus what the graph draws, where not zero. */
  function Loss(gross: Amounts, shown: Amounts): Amounts {
    map c | c in gross && gross[c] - Get(shown, c) != 0 :: gross[c] - Get(shown, c)
  }

  function Shown(agg: Flows, dropped: set<Pair>, p: Pair): Amounts {
    if p in agg && p !in dropped then agg[p] else map[]
  }

  function Account(agg: Flows, dropped: set<Pair>, c: Cycle): Cycle {
    c.(legs := seq(|c.legs|, i requires 0 <= i < |c.legs| =>
         c.legs[i].(discarded := Loss(c.legs[i].value, Shown(agg, dropped, c.legs[i].pair)))))
  }

  function AccountAll(agg: Flows, dropped: set<Pair>, cs: seq<Cycle>): seq<Cycle> {
    seq(|cs|, i requires 0 <= i < |cs| => Account(agg, dropped, cs[i]))
  }

  /** The text that names a loop by its accounts, whatever their order. */
  function CycleKey(c: Cycle): string {
    Join(SortBy(StrLe, c.nodes))
  }

  function Dedupe(cs: seq<Cycle>): seq<Cycle> {
    if cs == [] then []
    else
      var c := cs[|cs| - 1];
      var before := Dedupe(cs[..|cs| - 1]);
      if exists i :: 0 <= i < |cs| - 1 && CycleKey(cs[i]) == CycleKey(c) then before
      else before + [c]
  }

  predicate CycleLe(a: Cycle, b: Cycle) {
    if a.kind != b.kind then a.kind == Reciprocal
    else StrLe(Join(a.nodes), Join(b.nodes))
  }

  function DedupeAndSort(cs: seq<Cycle>): seq<Cycle> {
    SortBy(CycleLe, Dedupe(cs))
  }
}
