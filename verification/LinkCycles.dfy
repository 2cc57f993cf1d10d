/** The circular-money report of `link_cycles.go`: every cross-account flow is
    either a leg of a reported cycle or a one-sided flow. */
module LinkCycles {
  import opened Options
  import opened Ordering
  import opened Currency
  import opened Sums
  import opened AccountGraph
  import opened FlowTheorems
  import opened FlowAccounting
  import opened FlowMeaning
  import opened FlowRanking
  import AccountFlows

  datatype DetailRow = DetailRow(linkType: string, link: LinkRow)

  datatype TypeTotal = TypeTotal(count: nat, total: Amounts)

  datatype PairTotal = PairTotal(total: Amounts, count: nat, types: map<string, TypeTotal>)

  datatype ReportLeg = ReportLeg(pair: Pair, amount: Amounts, count: nat, types: seq<(string, TypeTotal)>)

  datatype ReportCycle = ReportCycle(
    kind: CycleKind, accounts: seq<AccountId>, legs: seq<ReportLeg>,
    net: Amounts, gross: Amounts, transactions: nat)

  datatype Report = Report(cycles: seq<ReportCycle>, oneSided: seq<ReportLeg>, totalCircular: Amounts)

  function Links(rows: seq<DetailRow>): seq<LinkRow> {
    seq(|rows|, i requires 0 <= i < |rows| => rows[i].link)
  }

  // ----- per-pair totals

  const NoLinks := PairTotal(map[], 0, map[])

  function Fold(t: PairTotal, r: DetailRow): PairTotal {
    var kind := if r.linkType in t.types then t.types[r.linkType] else TypeTotal(0, map[]);
    PairTotal(Add(t.total, r.link.currency, r.link.amount), t.count + 1,
      t.types[r.linkType := TypeTotal(kind.count + 1, Add(kind.total, r.link.currency, r.link.amount))])
  }

  function PairTotals(rows: seq<DetailRow>): map<Pair, PairTotal> {
    if rows == [] then map[]
    else
      var before, r := PairTotals(rows[..|rows| - 1]), rows[|rows| - 1];
      match FlowLinkEnds(r.link)
      case None => before
      case Some(p) => before[p := Fold(if p in before then before[p] else NoLinks, r)]
  }

  lemma LinksInit(rows: seq<DetailRow>)
    requires rows != []
    ensures Links(rows)[..|rows| - 1] == Links(rows[..|rows| - 1])
    ensures Links(rows)[|rows| - 1] == rows[|rows| - 1].link
  {
  }

  /** The report's pairs are the pairs of the account graph, with its totals. */
  lemma {:induction false} PairTotalsAreGross(rows: seq<DetailRow>)
    ensures PairTotals(rows).Keys == Gross(Links(rows)).Keys
    ensures forall p :: p in PairTotals(rows) ==> PairTotals(rows)[p].total == Gross(Links(rows))[p]
  {
    if rows != [] {
      LinksInit(rows);
      PairTotalsAreGross(rows[..|rows| - 1]);
    }
  }

  ghost function TypeAmount(types: map<string, TypeTotal>, code: string): string -> int {
    t => if t in types then Get(types[t].total, code) else 0
  }

  ghost function TypeCount(types: map<string, TypeTotal>): string -> int {
    t => if t in types then types[t].count else 0
  }

  /** A pair agrees with its per-type rollup: its amount in every currency and
      its count are the sums over the link types. */
  ghost predicate RollupAgrees(t: PairTotal) {
    && (forall code :: Get(t.total, code) == SumOver(t.types.Keys, TypeAmount(t.types, code)))
    && t.count == SumOver(t.types.Keys, TypeCount(t.types))
  }

  lemma GrowSum(s: set<string>, f: string -> int, g: string -> int, k: string)
    requires k !in s ==> f(k) == 0
    requires forall x :: x != k ==> f(x) == g(x)
    ensures SumOver(s + {k}, g) == SumOver(s, f) + g(k) - f(k)
  {
    if k in s {
      assert s + {k} == s;
      SumBump(s, f, g, k);
    } else {
      SumAdd(s, g, k);
      SumSame(s, f, g);
    }
  }

  lemma FoldAgrees(t: PairTotal, r: DetailRow)
    requires RollupAgrees(t)
    ensures RollupAgrees(Fold(t, r))
  {
    var t' := Fold(t, r);
    var k := r.linkType;
    assert t'.types.Keys == t.types.Keys + {k};
    forall code ensures Get(t'.total, code) == SumOver(t'.types.Keys, TypeAmount(t'.types, code)) {
      var f, g := TypeAmount(t.types, code), TypeAmount(t'.types, code);
      assert g(k) - f(k) == if r.link.currency == code then r.link.amount else 0;
      GrowSum(t.types.Keys, f, g, k);
      AddGet(t.total, r.link.currency, r.link.amount, code);
      AddGet(if k in t.types then t.types[k].total else map[], r.link.currency, r.link.amount, code);
    }
    assert TypeCount(t'.types)(k) == TypeCount(t.types)(k) + 1;
    GrowSum(t.types.Keys, TypeCount(t.types), TypeCount(t'.types), k);
  }

  lemma {:induction false} LegsAgreeWithTypes(rows: seq<DetailRow>, p: Pair)
    requires p in PairTotals(rows)
    ensures RollupAgrees(PairTotals(rows)[p])
  {
    var before, r := PairTotals(rows[..|rows| - 1]), rows[|rows| - 1];
    if p in before {
      LegsAgreeWithTypes(rows[..|rows| - 1], p);
    }
    if FlowLinkEnds(r.link) == Some(p) {
      assert RollupAgrees(NoLinks);
      FoldAgrees(if p in before then before[p] else NoLinks, r);
    }
  }

  // ----- one cycle of the report

  function MinAmounts(a: Amounts, b: Amounts): Amounts {
    map c | c in a.Keys + b.Keys ::
      if c in a && c in b then (if b[c] < a[c] then b[c] else a[c])
      else if c in a then a[c] else b[c]
  }

  predicate TypeLe(a: (string, TypeTotal), b: (string, TypeTotal)) {
    var c := CompareFlowTotals(a.1.total, b.1.total);
    if c != 0 then c < 0 else StrLe(a.0, b.0)
  }

  function RenderLeg(pairs: map<Pair, PairTotal>, p: Pair): ReportLeg
    requires p in pairs
  {
    var types := SortedStrings(pairs[p].types.Keys);
    SortedStringsSpec(pairs[p].types.Keys);
    var listed := seq(|types|, i requires 0 <= i < |types| => (types[i], pairs[p].types[types[i]]));
    ReportLeg(p, pairs[p].total, pairs[p].count, SortBy(TypeLe, listed))
  }

  function NetOf(legs: seq<ReportLeg>): Amounts {
    if legs == [] then map[] else MinAmounts(NetOf(legs[..|legs| - 1]), legs[|legs| - 1].amount)
  }

  function GrossOf(legs: seq<ReportLeg>): Amounts {
    if legs == [] then map[] else AddAll(GrossOf(legs[..|legs| - 1]), legs[|legs| - 1].amount)
  }

  function CountOf(legs: seq<ReportLeg>): nat {
    if legs == [] then 0 else CountOf(legs[..|legs| - 1]) + legs[|legs| - 1].count
  }

  predicate LegsIn(pairs: map<Pair, PairTotal>, c: Cycle) {
    forall i :: 0 <= i < |c.legs| ==> c.legs[i].pair in pairs
  }

  function RenderLegs(pairs: map<Pair, PairTotal>, c: Cycle): seq<ReportLeg>
    requires LegsIn(pairs, c)
  {
    seq(|c.legs|, i requires 0 <= i < |c.legs| => RenderLeg(pairs, c.legs[i].pair))
  }

  function RenderCycle(pairs: map<Pair, PairTotal>, c: Cycle): ReportCycle
    requires LegsIn(pairs, c)
  {
    var legs := RenderLegs(pairs, c);
    ReportCycle(c.kind, c.nodes, legs, NetOf(legs), GrossOf(legs), CountOf(legs))
  }

  function CircularOf(cycles: seq<ReportCycle>): Amounts {
    if cycles == [] then map[] else AddAll(CircularOf(cycles[..|cycles| - 1]), cycles[|cycles| - 1].net)
  }

  /** Net is, in every currency, the smallest amount among the legs that hold
      that currency. */
  lemma {:induction false} NetIsSmallestHolding(legs: seq<ReportLeg>, code: string)
    ensures code in NetOf(legs) <==> exists i :: 0 <= i < |legs| && code in legs[i].amount
    ensures code in NetOf(legs) ==>
              exists i :: 0 <= i < |legs| && code in legs[i].amount && legs[i].amount[code] == NetOf(legs)[code]
    ensures forall i :: 0 <= i < |legs| && code in legs[i].amount ==> NetOf(legs)[code] <= legs[i].amount[code]
  {
    if legs != [] {
      var init, last := legs[..|legs| - 1], legs[|legs| - 1];
      NetIsSmallestHolding(init, code);
      assert forall i :: 0 <= i < |init| ==> init[i] == legs[i];
      if code in NetOf(init) && !(code in last.amount && last.amount[code] < NetOf(init)[code]) {
        var i :| 0 <= i < |init| && code in init[i].amount && init[i].amount[code] == NetOf(init)[code];
        assert legs[i].amount[code] == NetOf(legs)[code];
      } else if code in last.amount {
        assert legs[|legs| - 1].amount[code] == NetOf(legs)[code];
      }
    }
  }

  function LegSum(legs: seq<ReportLeg>, code: string): int {
    if legs == [] then 0 else LegSum(legs[..|legs| - 1], code) + Get(legs[|legs| - 1].amount, code)
  }

  /** Gross is the sum of the legs, currency by currency. */
  lemma {:induction false} GrossIsLegSum(legs: seq<ReportLeg>, code: string)
    ensures Get(GrossOf(legs), code) == LegSum(legs, code)
  {
    if legs != [] {
      GrossIsLegSum(legs[..|legs| - 1], code);
    }
  }

  /** What actually goes round: the smallest leg, a leg without the currency
      carrying none of it. */
  function Circulation(legs: seq<ReportLeg>, code: string): int
    requires legs != []
  {
    var last := Get(legs[|legs| - 1].amount, code);
    if |legs| == 1 then last
    else
      var before := Circulation(legs[..|legs| - 1], code);
      if last < before then last else before
  }

  lemma {:induction false} CirculationIsLeast(legs: seq<ReportLeg>, code: string)
    requires legs != []
    ensures forall i :: 0 <= i < |legs| ==> Circulation(legs, code) <= Get(legs[i].amount, code)
    ensures exists i :: 0 <= i < |legs| && Circulation(legs, code) == Get(legs[i].amount, code)
  {
    var k := |legs| - 1;
    if k > 0 {
      var init := legs[..k];
      CirculationIsLeast(init, code);
      var j :| 0 <= j < |init| && Circulation(init, code) == Get(init[j].amount, code);
      assert legs[j] == init[j];
      forall i | 0 <= i < |legs| ensures Circulation(legs, code) <= Get(legs[i].amount, code) {
        if i < k { assert legs[i] == init[i]; }
      }
      assert Circulation(legs, code) == Get(legs[k].amount, code)
               || Circulation(legs, code) == Get(legs[j].amount, code);
    } else {
      assert Circulation(legs, code) == Get(legs[0].amount, code);
    }
  }

  /** A net figure is what circulates the whole loop exactly when every leg
      holds its currency. A leg of zero-valued links holds none, so a net with
      one key alone does not say so. */
  lemma NetIsCirculation(legs: seq<ReportLeg>, code: string)
    requires legs != [] && code in NetOf(legs)
    requires forall i, c :: 0 <= i < |legs| && c in legs[i].amount ==> legs[i].amount[c] > 0
    ensures NetOf(legs)[code] == Circulation(legs, code) <==> forall i :: 0 <= i < |legs| ==> code in legs[i].amount
  {
    NetIsSmallestHolding(legs, code);
    CirculationIsLeast(legs, code);
    var j :| 0 <= j < |legs| && code in legs[j].amount && legs[j].amount[code] == NetOf(legs)[code];
    assert NetOf(legs)[code] > 0;
    if forall i :: 0 <= i < |legs| ==> code in legs[i].amount {
      var k :| 0 <= k < |legs| && Circulation(legs, code) == Get(legs[k].amount, code);
      assert Circulation(legs, code) <= Get(legs[j].amount, code);
    } else {
      var i :| 0 <= i < |legs| && code !in legs[i].amount;
      assert Circulation(legs, code) <= Get(legs[i].amount, code) == 0;
    }
  }

  // ----- the whole report

  predicate InCycle(cs: seq<Cycle>, p: Pair) {
    exists i, j :: 0 <= i < |cs| && 0 <= j < |cs[i].legs| && cs[i].legs[j].pair == p
  }

  function OneSidedPairs(pairs: map<Pair, PairTotal>, cs: seq<Cycle>): set<Pair> {
    set p | p in pairs && !InCycle(cs, p) && Reverse(p) !in pairs
  }

  predicate AllLegsIn(pairs: map<Pair, PairTotal>, cs: seq<Cycle>) {
    forall i :: 0 <= i < |cs| ==> LegsIn(pairs, cs[i])
  }

  function RenderAll(pairs: map<Pair, PairTotal>, cs: seq<Cycle>): seq<ReportCycle>
    requires AllLegsIn(pairs, cs)
  {
    seq(|cs|, i requires 0 <= i < |cs| => RenderCycle(pairs, cs[i]))
  }

  function RenderSides(pairs: map<Pair, PairTotal>, sides: seq<Pair>): seq<ReportLeg>
    requires forall p :: p in sides ==> p in pairs
  {
    seq(|sides|, i requires 0 <= i < |sides| => RenderLeg(pairs, sides[i]))
  }

  ghost function CyclesOf(rows: seq<DetailRow>): seq<Cycle> {
    AccountFlows.GrossNoSelfLoops(Links(rows));
    Analyze(Gross(Links(rows))).cycles
  }

  /** Every leg of the analysis is a flow the report has totals for. */
  lemma ReportedLegsAreFlows(rows: seq<DetailRow>)
    ensures AllLegsIn(PairTotals(rows), CyclesOf(rows))
  {
    AccountFlows.GrossNoSelfLoops(Links(rows));
    PairTotalsAreGross(rows);
    var gross, cs := Gross(Links(rows)), CyclesOf(rows);
    forall i | 0 <= i < |cs| ensures LegsIn(PairTotals(rows), cs[i]) {
      assert cs[i] in cs;
      ReportedLegs(gross, cs[i]);
    }
  }

  ghost function ReportOf(rows: seq<DetailRow>): Report {
    var pairs, cs := PairTotals(rows), CyclesOf(rows);
    ReportedLegsAreFlows(rows);
    var cycles := RenderAll(pairs, cs);
    PairOrder();
    SortSetSpec(PairLe, OneSidedPairs(pairs, cs));
    Report(cycles, RenderSides(pairs, SortSet(PairLe, OneSidedPairs(pairs, cs))), CircularOf(cycles))
  }

  predicate HasReportLeg(r: Report, p: Pair) {
    exists i, j :: 0 <= i < |r.cycles| && 0 <= j < |r.cycles[i].legs| && r.cycles[i].legs[j].pair == p
  }

  predicate HasSide(r: Report, p: Pair) {
    exists k :: 0 <= k < |r.oneSided| && r.oneSided[k].pair == p
  }

  lemma ReportLegsAre(rows: seq<DetailRow>, p: Pair)
    ensures HasReportLeg(ReportOf(rows), p) <==> InCycle(CyclesOf(rows), p)
  {
    ReportedLegsAreFlows(rows);
    var r, cs := ReportOf(rows), CyclesOf(rows);
    assert |r.cycles| == |cs|;
    forall i | 0 <= i < |cs|
      ensures |r.cycles[i].legs| == |cs[i].legs|
      ensures forall j :: 0 <= j < |cs[i].legs| ==> r.cycles[i].legs[j].pair == cs[i].legs[j].pair
    {
      assert r.cycles[i] == RenderCycle(PairTotals(rows), cs[i]);
    }
    if HasReportLeg(r, p) {
      var i, j :| 0 <= i < |r.cycles| && 0 <= j < |r.cycles[i].legs| && r.cycles[i].legs[j].pair == p;
      assert cs[i].legs[j].pair == p;
    }
    if InCycle(cs, p) {
      var i, j :| 0 <= i < |cs| && 0 <= j < |cs[i].legs| && cs[i].legs[j].pair == p;
      assert r.cycles[i].legs[j].pair == p;
    }
  }

  lemma SidesAre(rows: seq<DetailRow>)
    ensures var r, sides := ReportOf(rows), OneSidedPairs(PairTotals(rows), CyclesOf(rows));
            && (forall p :: HasSide(r, p) <==> p in sides)
            && (forall i, j :: 0 <= i < j < |r.oneSided| ==> r.oneSided[i].pair != r.oneSided[j].pair)
  {
    var r, sides := ReportOf(rows), OneSidedPairs(PairTotals(rows), CyclesOf(rows));
    PairOrder();
    SortSetSpec(PairLe, sides);
    var listed := SortSet(PairLe, sides);
    assert |r.oneSided| == |listed|;
    assert forall k :: 0 <= k < |listed| ==> r.oneSided[k].pair == listed[k];
    forall p ensures HasSide(r, p) <==> p in sides {
      if p in sides {
        var k :| 0 <= k < |listed| && listed[k] == p;
        assert r.oneSided[k].pair == p;
      }
    }
  }

  /** The report accounts for every flow between two accounts: it is a leg of a
      reported cycle or a one-sided flow, never both and never neither, and a
      one-sided flow is listed once and has no flow back. */
  lemma EveryFlowIsReported(rows: seq<DetailRow>, p: Pair)
    requires p in PairTotals(rows) && PlainIds(Gross(Links(rows)))
    ensures HasReportLeg(ReportOf(rows), p) <==> !HasSide(ReportOf(rows), p)
    ensures var sides := ReportOf(rows).oneSided;
            forall i, j :: 0 <= i < j < |sides| ==> sides[i].pair != sides[j].pair
    ensures HasSide(ReportOf(rows), p) ==> Reverse(p) !in PairTotals(rows)
  {
    ReportLegsAre(rows, p);
    SidesAre(rows);
    PairTotalsAreGross(rows);
    AccountFlows.GrossNoSelfLoops(Links(rows));
    if Reverse(p) in PairTotals(rows) {
      var c := BothWaysReported(Gross(Links(rows)), p);
      var cs := CyclesOf(rows);
      var i :| 0 <= i < |cs| && cs[i] == c;
      var j :| 0 <= j < |c.legs| && c.legs[j].pair == p;
      assert cs[i].legs[j].pair == p;
      assert InCycle(cs, p);
    }
  }

  // ----- a net that does not circulate

  function Lesser(a: int, b: int): int {
    if b < a then b else a
  }

  lemma TwoLegs(legs: seq<ReportLeg>, code: string)
    requires |legs| == 2
    ensures NetOf(legs) == MinAmounts(legs[0].amount, legs[1].amount)
    ensures var a, b := Get(legs[0].amount, code), Get(legs[1].amount, code);
            Circulation(legs, code) == if b < a then b else a
  {
    assert legs[..1][..0] == [] && legs[..1] == [legs[0]];
    assert NetOf(legs[..1]) == legs[0].amount;
  }

  lemma TwoPairTotals(a: DetailRow, b: DetailRow, p: Pair, q: Pair)
    requires FlowLinkEnds(a.link) == Some(p) && FlowLinkEnds(b.link) == Some(q) && p != q
    ensures PairTotals([a, b]) == map[p := Fold(NoLinks, a), q := Fold(NoLinks, b)]
  {
    assert [a, b][..1] == [a] && [a][..0] == [];
    assert PairTotals([a]) == map[p := Fold(NoLinks, a)];
  }

  // A two-account cycle of the analysis has the two directions as its legs.
  lemma TwoAccountCycle(gross: Flows, p: Pair) returns (c: Cycle)
    requires NoSelfLoops(gross) && PlainIds(gross) && p in gross && Reverse(p) in gross
    ensures c in Analyze(gross).cycles && IsBothWays(c, p)
  {
    c := BothWaysReported(gross, p);
    ReportedLegs(gross, c);
    TwoNodesBothWays(gross, c, p);
  }

  lemma RenderedNet(rows: seq<DetailRow>, i: nat, code: string)
    requires i < |CyclesOf(rows)| && |CyclesOf(rows)[i].legs| == 2
    ensures var c, pairs := CyclesOf(rows)[i], PairTotals(rows);
            && c.legs[0].pair in pairs && c.legs[1].pair in pairs && i < |ReportOf(rows).cycles|
            && var a, b := pairs[c.legs[0].pair].total, pairs[c.legs[1].pair].total;
               && ReportOf(rows).cycles[i].net == MinAmounts(a, b) && |ReportOf(rows).cycles[i].legs| == 2
               && Circulation(ReportOf(rows).cycles[i].legs, code) == Lesser(Get(a, code), Get(b, code))
  {
    ReportedLegsAreFlows(rows);
    var c, pairs := CyclesOf(rows)[i], PairTotals(rows);
    assert LegsIn(pairs, c);
    var legs := RenderLegs(pairs, c);
    assert ReportOf(rows).cycles[i] == RenderCycle(pairs, c);
    TwoLegs(legs, code);
  }

  lemma MinAmountsCommute(a: Amounts, b: Amounts)
    ensures MinAmounts(a, b) == MinAmounts(b, a)
  {
  }

  // Which of the two legs comes first makes no difference.
  lemma RenderedBothWays(rows: seq<DetailRow>, i: nat, p: Pair, code: string)
    requires i < |CyclesOf(rows)| && IsBothWays(CyclesOf(rows)[i], p)
    requires p in PairTotals(rows) && Reverse(p) in PairTotals(rows)
    ensures i < |ReportOf(rows).cycles| && |ReportOf(rows).cycles[i].legs| == 2
    ensures var c, a, b := ReportOf(rows).cycles[i], PairTotals(rows)[p].total, PairTotals(rows)[Reverse(p)].total;
            c.net == MinAmounts(a, b) && Circulation(c.legs, code) == Lesser(Get(a, code), Get(b, code))
  {
    RenderedNet(rows, i, code);
    var c := CyclesOf(rows)[i];
    assert c.legs[0].pair in {p, Reverse(p)} && c.legs[1].pair in {p, Reverse(p)};
    assert p in {c.legs[0].pair, c.legs[1].pair} && Reverse(p) in {c.legs[0].pair, c.legs[1].pair};
    MinAmountsCommute(PairTotals(rows)[p].total, PairTotals(rows)[Reverse(p)].total);
  }

  // What the report says of two accounts with flows both ways.
  lemma TwoWayCycle(rows: seq<DetailRow>, p: Pair) returns (i: nat)
    requires p in PairTotals(rows) && Reverse(p) in PairTotals(rows) && PlainIds(Gross(Links(rows)))
    ensures i < |CyclesOf(rows)| && IsBothWays(CyclesOf(rows)[i], p)
  {
    PairTotalsAreGross(rows);
    AccountFlows.GrossNoSelfLoops(Links(rows));
    var c := TwoAccountCycle(Gross(Links(rows)), p);
    i :| 0 <= i < |CyclesOf(rows)| && CyclesOf(rows)[i] == c;
  }

  /** Two accounts, 100 rupees one way and a zero-valued link back: the report
      has a cycle of them whose net has one key, and nothing goes round it. */
  lemma SingleKeyNetNeedNotCirculate() returns (rows: seq<DetailRow>, i: nat)
    ensures rows == [DetailRow("transfer", LinkRow(Debit, Credit, "a", "b", "INR", 100)),
                     DetailRow("transfer", LinkRow(Debit, Credit, "b", "a", "INR", 0))]
    ensures i < |ReportOf(rows).cycles| && ReportOf(rows).cycles[i].legs != []
    ensures ReportOf(rows).cycles[i].net == map["INR" := 100]
    ensures Circulation(ReportOf(rows).cycles[i].legs, "INR") == 0
  {
    var a := DetailRow("transfer", LinkRow(Debit, Credit, "a", "b", "INR", 100));
    var b := DetailRow("transfer", LinkRow(Debit, Credit, "b", "a", "INR", 0));
    var p, q := Pair("a", "b"), Pair("b", "a");
    rows := [a, b];
    assert "a"[0] != "b"[0];
    TwoPairTotals(a, b, p, q);
    assert Reverse(p) == q;
    PairTotalsAreGross(rows);
    assert MinAmounts(map["INR" := 100], map[]) == map["INR" := 100];
    i := TwoWayCycle(rows, p);
    RenderedBothWays(rows, i, p, "INR");
  }

  // ----- the report as the program builds it

  /** The smaller of two totals, one currency at a time. */
  method MinCycleAmounts(a: Amounts, b: Amounts) returns (out: Amounts)
    ensures out == MinAmounts(a, b)
  {
    out := map[];
    var rest := a.Keys;
    while rest != {}
      invariant rest <= a.Keys
      invariant out == map c | c in a && c !in rest :: MinAmounts(a, b)[c]
      decreases rest
    {
      var code :| code in rest;
      rest := rest - {code};
      var amount := a[code];
      if code in b && b[code] < amount {
        amount := b[code];
      }
      out := out[code := amount];
    }
    rest := b.Keys;
    while rest != {}
      invariant rest <= b.Keys
      invariant out == map c | c in a.Keys + b.Keys && (c in a || c !in rest) :: MinAmounts(a, b)[c]
      decreases rest
    {
      var code :| code in rest;
      rest := rest - {code};
      if code !in a {
        out := out[code := b[code]];
      }
    }
  }

  lemma OneMoreLink(rows: seq<DetailRow>, n: nat)
    requires n < |rows|
    ensures PairTotals(rows[..n + 1]) ==
              match FlowLinkEnds(rows[n].link)
              case None => PairTotals(rows[..n])
              case Some(p) => PairTotals(rows[..n])[p :=
                  Fold(if p in PairTotals(rows[..n]) then PairTotals(rows[..n])[p] else NoLinks, rows[n])]
  {
    assert rows[..n + 1][..n] == rows[..n];
  }

  // Folds one link into its pair's totals.
  method FoldLink(pair: PairTotal, r: DetailRow) returns (out: PairTotal)
    ensures out == Fold(pair, r)
  {
    out := pair.(total := Add(pair.total, r.link.currency, r.link.amount), count := pair.count + 1);
    var byType := if r.linkType in pair.types then pair.types[r.linkType] else TypeTotal(0, map[]);
    byType := byType.(count := byType.count + 1);
    byType := byType.(total := Add(byType.total, r.link.currency, r.link.amount));
    out := out.(types := out.types[r.linkType := byType]);
  }

  method FoldPairs(rows: seq<DetailRow>) returns (pairs: map<Pair, PairTotal>, links: seq<LinkRow>)
    ensures pairs == PairTotals(rows) && links == Links(rows)
  {
    pairs, links := map[], [];
    for n := 0 to |rows|
      invariant pairs == PairTotals(rows[..n])
      invariant |links| == n && forall k :: 0 <= k < n ==> links[k] == rows[k].link
    {
      var r := rows[n];
      links := links + [r.link];
      OneMoreLink(rows, n);
      var ends := FlowLinkEnds(r.link);
      if ends.Some? {
        var pair := FoldLink(if ends.value in pairs then pairs[ends.value] else NoLinks, r);
        pairs := pairs[ends.value := pair];
      }
    }
    assert rows[..|rows|] == rows;
  }

  lemma OneMoreLeg(legs: seq<ReportLeg>, leg: ReportLeg)
    ensures NetOf(legs + [leg]) == MinAmounts(NetOf(legs), leg.amount)
    ensures GrossOf(legs + [leg]) == AddAll(GrossOf(legs), leg.amount)
    ensures CountOf(legs + [leg]) == CountOf(legs) + leg.count
  {
    assert (legs + [leg])[..|legs|] == legs;
  }

  // One cycle: its legs, their sum and their minimum, and the pairs it covers.
  method BuildCycle(pairs: map<Pair, PairTotal>, c: Cycle, covered: set<Pair>)
    returns (out: ReportCycle, inCycle: set<Pair>)
    requires LegsIn(pairs, c)
    ensures out == RenderCycle(pairs, c)
    ensures forall p :: p in inCycle <==> p in covered || exists j :: 0 <= j < |c.legs| && c.legs[j].pair == p
  {
    inCycle := covered;
    var legs: seq<ReportLeg> := [];
    var net: Amounts, gross: Amounts, transactions := map[], map[], 0;
    for j := 0 to |c.legs|
      invariant |legs| == j && forall k :: 0 <= k < j ==> legs[k] == RenderLeg(pairs, c.legs[k].pair)
      invariant net == NetOf(legs) && gross == GrossOf(legs) && transactions == CountOf(legs)
      invariant forall p :: p in inCycle <==> p in covered || exists k :: 0 <= k < j && c.legs[k].pair == p
    {
      var p := c.legs[j].pair;
      inCycle := inCycle + {p};
      var leg := RenderLeg(pairs, p);
      OneMoreLeg(legs, leg);
      legs := legs + [leg];
      transactions := transactions + leg.count;
      gross := AddAmounts(gross, leg.amount);
      net := MinCycleAmounts(net, leg.amount);
    }
    assert legs == RenderLegs(pairs, c);
    out := ReportCycle(c.kind, c.nodes, legs, net, gross, transactions);
  }

  lemma OneMoreCycle(cs: seq<Cycle>, i: nat, p: Pair)
    requires i < |cs|
    ensures InCycle(cs[..i + 1], p)
       <==> InCycle(cs[..i], p) || exists j :: 0 <= j < |cs[i].legs| && cs[i].legs[j].pair == p
  {
    if InCycle(cs[..i + 1], p) {
      var k, j :| 0 <= k < i + 1 && 0 <= j < |cs[k].legs| && cs[k].legs[j].pair == p;
      if k < i {
        assert cs[..i][k].legs[j].pair == p;
      }
    }
    if InCycle(cs[..i], p) {
      var k, j :| 0 <= k < i && 0 <= j < |cs[..i][k].legs| && cs[..i][k].legs[j].pair == p;
      assert cs[..i + 1][k].legs[j].pair == p;
    }
    if j :| 0 <= j < |cs[i].legs| && cs[i].legs[j].pair == p {
      assert cs[..i + 1][i].legs[j].pair == p;
    }
  }

  method BuildCycles(pairs: map<Pair, PairTotal>, cs: seq<Cycle>)
    returns (cycles: seq<ReportCycle>, inCycle: set<Pair>, circular: Amounts)
    requires AllLegsIn(pairs, cs)
    ensures cycles == RenderAll(pairs, cs) && circular == CircularOf(cycles)
    ensures forall p :: p in inCycle <==> InCycle(cs, p)
  {
    cycles, inCycle, circular := [], {}, map[];
    for i := 0 to |cs|
      invariant cycles == RenderAll(pairs, cs)[..i] && circular == CircularOf(cycles)
      invariant forall p :: p in inCycle <==> InCycle(cs[..i], p)
    {
      var out;
      ghost var before := inCycle;
      out, inCycle := BuildCycle(pairs, cs[i], inCycle);
      forall p ensures p in inCycle <==> InCycle(cs[..i + 1], p) {
        OneMoreCycle(cs, i, p);
      }
      assert (cycles + [out])[..|cycles|] == cycles;
      circular := AddAmounts(circular, out.net);
      cycles := cycles + [out];
    }
    assert cs[..|cs|] == cs;
  }

  method BuildSides(pairs: map<Pair, PairTotal>, inCycle: set<Pair>, ghost cs: seq<Cycle>)
    returns (sides: seq<ReportLeg>)
    requires forall p :: p in inCycle <==> InCycle(cs, p)
    ensures var s := SortSet(PairLe, OneSidedPairs(pairs, cs));
            (forall p :: p in s ==> p in pairs) && sides == RenderSides(pairs, s)
  {
    var listing := Listing(set p | p in pairs && p !in inCycle && Reverse(p) !in pairs);
    PairOrder();
    SortListing(PairLe, listing, OneSidedPairs(pairs, cs));
    SortSetSpec(PairLe, OneSidedPairs(pairs, cs));
    sides := RenderSides(pairs, SortBy(PairLe, listing));
  }

  /** The circular-money report of a user's links. */
  method BuildLinkCycleReport(rows: seq<DetailRow>) returns (report: Report)
    ensures report == ReportOf(rows)
  {
    var pairs, links := FoldPairs(rows);
    var edges, cs := AccountFlows.AnalyzeAccountFlows(links);
    assert cs == CyclesOf(rows);
    ReportedLegsAreFlows(rows);
    var cycles, inCycle, circular := BuildCycles(pairs, cs);
    var sides := BuildSides(pairs, inCycle, cs);
    report := Report(cycles, sides, circular);
  }
}
