/** The money-flow graph of `money_flow.go`: stages of nodes capped at a limit,
    the rest rolled into an "Other" node, and the edges drawn through the same
    rollup. */
module MoneyFlow {
  import opened Ordering
  import opened Currency
  import opened AccountGraph
  import opened FlowTheorems
  import opened FlowRanking
  import opened FlowSums
  import opened Sums
  import AccountFlows

  // ----- rows and node ids

  datatype IncomeRow = IncomeRow(cat: string, acct: AccountId, currency: string, total: int)
  datatype SpendRow = SpendRow(acct: AccountId, cat: string, currency: string, total: int)
  datatype PaidRow = PaidRow(cat: string, payee: string, currency: string, total: int)

  datatype Inputs = Inputs(income: seq<IncomeRow>, spend: seq<SpendRow>, paid: seq<PaidRow>, edges: seq<FlowEdge>,
                           limit: int)

  datatype Node = Node(id: string, total: Amounts)
  datatype Link = Link(pair: Pair, value: Amounts)
  datatype Response = Response(nodes: seq<Node>, links: seq<Link>)

  const OTHER_INCOME := "income:other"
  const OTHER_CATEGORY := "category:other"
  const OTHER_PAYEE := "payee:other"

  function IncomeId(cat: string): string {
    if cat == "" then "income:uncategorized" else "income:" + cat
  }

  function AcctId(id: AccountId): string {
    "account:" + id
  }

  function CategoryId(cat: string): string {
    if cat == "" then "category:uncategorized" else "category:" + cat
  }

  function PayeeId(payee: string): string {
    if payee == "" then "payee:none" else "payee:" + payee
  }

  function AcctPair(p: Pair): Pair {
    Pair(AcctId(p.src), AcctId(p.dst))
  }

  // ----- contributions to the nodes

  function IncomeEntries(rows: seq<IncomeRow>): seq<Entry<string>> {
    seq(|rows|, i requires 0 <= i < |rows| => Entry(IncomeId(rows[i].cat), One(rows[i].currency, rows[i].total)))
  }

  function EarnedEntries(rows: seq<IncomeRow>): seq<Entry<string>> {
    seq(|rows|, i requires 0 <= i < |rows| => Entry(AcctId(rows[i].acct), One(rows[i].currency, rows[i].total)))
  }

  function SpentEntries(rows: seq<SpendRow>): seq<Entry<string>> {
    seq(|rows|, i requires 0 <= i < |rows| => Entry(AcctId(rows[i].acct), One(rows[i].currency, rows[i].total)))
  }

  function CategoryEntries(rows: seq<PaidRow>): seq<Entry<string>> {
    seq(|rows|, i requires 0 <= i < |rows| => Entry(CategoryId(rows[i].cat), One(rows[i].currency, rows[i].total)))
  }

  function PayeeEntries(rows: seq<PaidRow>): seq<Entry<string>> {
    seq(|rows|, i requires 0 <= i < |rows| => Entry(PayeeId(rows[i].payee), One(rows[i].currency, rows[i].total)))
  }

  function ArrivingEntries(edges: seq<FlowEdge>): seq<Entry<string>> {
    seq(|edges|, i requires 0 <= i < |edges| => Entry(AcctId(edges[i].pair.dst), edges[i].value))
  }

  function LeavingEntries(edges: seq<FlowEdge>): seq<Entry<string>> {
    seq(|edges|, i requires 0 <= i < |edges| => Entry(AcctId(edges[i].pair.src), edges[i].value))
  }

  function AcctIn(x: Inputs): seq<Entry<string>> {
    EarnedEntries(x.income) + ArrivingEntries(x.edges)
  }

  function AcctOut(x: Inputs): seq<Entry<string>> {
    SpentEntries(x.spend) + LeavingEntries(x.edges)
  }

  function Earners(rows: seq<IncomeRow>): set<string> {
    set r | r in rows :: AcctId(r.acct)
  }

  function Spenders(rows: seq<SpendRow>): set<string> {
    set r | r in rows :: AcctId(r.acct)
  }

  function Movers(edges: seq<FlowEdge>): set<string> {
    (set e | e in edges :: AcctId(e.pair.src)) + (set e | e in edges :: AcctId(e.pair.dst))
  }

  function AcctIds(x: Inputs): set<string> {
    Earners(x.income) + Spenders(x.spend) + Movers(x.edges)
  }

  /** The larger of what came in and what went out, one currency at a time. */
  function MaxAmounts(flowIn: Amounts, flowOut: Amounts): Amounts {
    map c | c in flowIn.Keys + flowOut.Keys ::
      if c in flowIn then (if Get(flowOut, c) > flowIn[c] then Get(flowOut, c) else flowIn[c]) else flowOut[c]
  }

  function AcctNodes(x: Inputs): map<string, Amounts> {
    var flowIn, flowOut := Totals(AcctIn(x)), Totals(AcctOut(x));
    map id | id in AcctIds(x) :: MaxAmounts(At(flowIn, id), At(flowOut, id))
  }

  // ----- a rendered stage

  function CodesOf(m: map<string, Amounts>, tail: set<string>): set<string> {
    set id, c | id in tail && id in m && c in m[id] && m[id][c] != 0 :: c
  }

  /** What the rolled-up nodes hold together, per currency. */
  ghost function OtherTotal(m: map<string, Amounts>, tail: set<string>): Amounts {
    map c | c in CodesOf(m, tail) :: SumOver(tail, Held(m, c))
  }

  function Restrict(m: map<string, Amounts>, kept: set<string>): map<string, Amounts> {
    map id | id in m && id in kept :: m[id]
  }

  ghost function NodesOf(m: map<string, Amounts>, ids: seq<string>): seq<Node>
    requires forall id :: id in ids ==> id in m
  {
    seq(|ids|, i requires 0 <= i < |ids| => Node(ids[i], m[ids[i]]))
  }

  ghost function OtherNode(m: map<string, Amounts>, kept: set<string>, other: string): seq<Node> {
    if other != "" && |kept| < |m| then [Node(other, OtherTotal(m, m.Keys - kept))] else []
  }

  /** The kept nodes by volume, then the rolled-up rest when there is one. */
  ghost function Stage(m: map<string, Amounts>, kept: set<string>, other: string): seq<Node> {
    RankedNodesSpec(Restrict(m, kept));
    NodesOf(m, RankedNodes(Restrict(m, kept))) + OtherNode(m, kept, other)
  }

  // ----- contributions to the edges

  function Rollup(id: string, kept: set<string>, other: string): string {
    if id in kept then id else other
  }

  datatype Kept = Kept(income: set<string>, category: set<string>, payee: set<string>)

  function IncomeEdges(rows: seq<IncomeRow>, k: Kept): seq<Entry<Pair>> {
    seq(|rows|, i requires 0 <= i < |rows| =>
      Entry(Pair(Rollup(IncomeId(rows[i].cat), k.income, OTHER_INCOME), AcctId(rows[i].acct)),
          One(rows[i].currency, rows[i].total)))
  }

  function SpendEdges(rows: seq<SpendRow>, k: Kept): seq<Entry<Pair>> {
    seq(|rows|, i requires 0 <= i < |rows| =>
      Entry(Pair(AcctId(rows[i].acct), Rollup(CategoryId(rows[i].cat), k.category, OTHER_CATEGORY)),
          One(rows[i].currency, rows[i].total)))
  }

  function PaidEdges(rows: seq<PaidRow>, k: Kept): seq<Entry<Pair>> {
    seq(|rows|, i requires 0 <= i < |rows| =>
      Entry(Pair(Rollup(CategoryId(rows[i].cat), k.category, OTHER_CATEGORY),
          Rollup(PayeeId(rows[i].payee), k.payee, OTHER_PAYEE)),
            One(rows[i].currency, rows[i].total)))
  }

  function AcctEdges(edges: seq<FlowEdge>): seq<Entry<Pair>> {
    seq(|edges|, i requires 0 <= i < |edges| => Entry(AcctPair(edges[i].pair), edges[i].value))
  }

  function EdgeEntries(x: Inputs, k: Kept): seq<Entry<Pair>> {
    IncomeEdges(x.income, k) + SpendEdges(x.spend, k) + PaidEdges(x.paid, k) + AcctEdges(x.edges)
  }

  ghost function KeptOf(x: Inputs): Kept {
    Kept(KeepTop(Totals(IncomeEntries(x.income)), x.limit),
         KeepTop(Totals(CategoryEntries(x.paid)), x.limit),
         KeepTop(Totals(PayeeEntries(x.paid)), x.limit))
  }

  ghost function LinksOver(m: map<Pair, Amounts>, keys: seq<Pair>): seq<Link>
    requires forall k :: k in keys ==> k in m
  {
    seq(|keys|, i requires 0 <= i < |keys| => Link(keys[i], m[keys[i]]))
  }

  ghost function LinksOf(edges: map<Pair, Amounts>): seq<Link> {
    PairOrder();
    SortSetSpec(PairLe, edges.Keys);
    LinksOver(edges, SortSet(PairLe, edges.Keys))
  }

  ghost function IncomeStage(x: Inputs): seq<Node> {
    Stage(Totals(IncomeEntries(x.income)), KeptOf(x).income, OTHER_INCOME)
  }

  ghost function AcctStage(x: Inputs): seq<Node> {
    Stage(AcctNodes(x), AcctNodes(x).Keys, "")
  }

  ghost function CategoryStage(x: Inputs): seq<Node> {
    Stage(Totals(CategoryEntries(x.paid)), KeptOf(x).category, OTHER_CATEGORY)
  }

  ghost function PayeeStage(x: Inputs): seq<Node> {
    Stage(Totals(PayeeEntries(x.paid)), KeptOf(x).payee, OTHER_PAYEE)
  }

  ghost function LinksDrawn(x: Inputs): seq<Link> {
    LinksOf(Totals(Drawable(EdgeEntries(x, KeptOf(x)))))
  }

  /** The response: nodes stage by stage and links in order. */
  ghost function GraphOf(x: Inputs): Response {
    Response(IncomeStage(x) + AcctStage(x) + CategoryStage(x) + PayeeStage(x), LinksDrawn(x))
  }
}
