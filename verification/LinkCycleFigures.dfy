/** What every figure of the circular-money report is in terms of the links it
    was built from. */
module LinkCycleFigures {
  import opened Options
  import opened Ordering
  import opened Currency
  import opened AccountGraph
  import opened FlowTheorems
  import opened FlowAccounting
  import opened FlowMeaning
  import opened FlowRanking
  import opened LinkCycles
  import AccountFlows

  // ----- links counted and added up

  function CountWhere(rows: seq<DetailRow>, p: DetailRow -> bool): nat {
    if rows == [] then 0 else CountWhere(rows[..|rows| - 1], p) + if p(rows[|rows| - 1]) then 1 else 0
  }

  function SumWhere(rows: seq<DetailRow>, p: DetailRow -> bool, code: string): int {
    if rows == [] then 0
    else
      var r := rows[|rows| - 1];
      SumWhere(rows[..|rows| - 1], p, code) + if p(r) && r.link.currency == code then r.link.amount else 0
  }

  function Between(p: Pair): DetailRow -> bool {
    (r: DetailRow) => Contributes(r.link, p)
  }

  function OfType(p: Pair, linkType: string): DetailRow -> bool {
    (r: DetailRow) => Contributes(r.link, p) && r.linkType == linkType
  }

  // ----- the totals of a pair

  predicate HasType(rows: seq<DetailRow>, p: Pair, linkType: string) {
    exists r :: r in rows && Contributes(r.link, p) && r.linkType == linkType
  }

  predicate ShowsType(types: seq<(string, TypeTotal)>, linkType: string) {
    exists i :: 0 <= i < |types| && types[i].0 == linkType
  }

  ghost predicate TypeIs(rows: seq<DetailRow>, p: Pair, types: map<string, TypeTotal>, k: string) {
    && (k in types <==> HasType(rows, p, k))
    && (k in types ==>
         && types[k].count == CountWhere(rows, OfType(p, k))
         && forall code :: Get(types[k].total, code) == SumWhere(rows, OfType(p, k), code))
  }

  ghost predicate TypesAre(rows: seq<DetailRow>, p: Pair, types: map<string, TypeTotal>) {
    forall k :: TypeIs(rows, p, types, k)
  }

  ghost predicate TotalsAre(rows: seq<DetailRow>, p: Pair, t: PairTotal) {
    && t.count == CountWhere(rows, Between(p))
    && (forall code :: Get(t.total, code) == SumWhere(rows, Between(p), code))
    && TypesAre(rows, p, t.types)
  }

  lemma NoneYet(rows: seq<DetailRow>, p: DetailRow -> bool, code: string)
    requires forall r :: r in rows ==> !p(r)
    ensures CountWhere(rows, p) == 0 && SumWhere(rows, p, code) == 0
  {
  }

  lemma NothingBetween(rows: seq<DetailRow>, p: Pair)
    requires forall r :: r in rows ==> !Contributes(r.link, p)
    ensures TotalsAre(rows, p, NoLinks)
  {
    forall code { NoneYet(rows, Between(p), code); }
    NoneYet(rows, Between(p), "");
  }

  lemma OneMoreOfType(init: seq<DetailRow>, r: DetailRow, p: Pair, t: PairTotal, k: string)
    requires TypeIs(init, p, t.types, k) && Contributes(r.link, p)
    ensures TypeIs(init + [r], p, Fold(t, r).types, k)
  {
    var rows, types := init + [r], Fold(t, r).types;
    assert rows[..|init|] == init && forall x :: x in rows <==> x in init || x == r;
    assert k == r.linkType ==> OfType(p, k)(r);
    if k == r.linkType {
      var before := if k in t.types then t.types[k] else TypeTotal(0, map[]);
      if k !in t.types {
        NoneYet(init, OfType(p, k), "");
      }
      assert types[k].count == CountWhere(rows, OfType(p, k));
      forall code ensures Get(types[k].total, code) == SumWhere(rows, OfType(p, k), code) {
        if k !in t.types {
          NoneYet(init, OfType(p, k), code);
        }
        AddGet(before.total, r.link.currency, r.link.amount, code);
      }
    }
  }

  lemma OneMoreBetween(init: seq<DetailRow>, r: DetailRow, p: Pair, t: PairTotal)
    requires TotalsAre(init, p, t) && Contributes(r.link, p)
    ensures TotalsAre(init + [r], p, Fold(t, r))
  {
    assert (init + [r])[..|init|] == init;
    forall code { AddGet(t.total, r.link.currency, r.link.amount, code); }
    forall k ensures TypeIs(init + [r], p, Fold(t, r).types, k) {
      OneMoreOfType(init, r, p, t, k);
    }
  }

  lemma OneMoreElsewhere(init: seq<DetailRow>, r: DetailRow, p: Pair, t: PairTotal)
    requires TotalsAre(init, p, t) && !Contributes(r.link, p)
    ensures TotalsAre(init + [r], p, t)
  {
    var rows := init + [r];
    assert rows[..|init|] == init && forall x :: x in rows <==> x in init || x == r;
    forall k ensures TypeIs(rows, p, t.types, k) {
      assert TypeIs(init, p, t.types, k);
      assert !OfType(p, k)(r);
    }
  }

  /** A pair's count, its totals and its rollup by type are those of the links
      between its accounts, each counted once. */
  lemma {:induction false} PairTotalsAreLinks(rows: seq<DetailRow>, p: Pair)
    ensures p in PairTotals(rows) <==> exists r :: r in rows && Contributes(r.link, p)
    ensures p in PairTotals(rows) ==> TotalsAre(rows, p, PairTotals(rows)[p])
  {
    if rows != [] {
      var init, r := rows[..|rows| - 1], rows[|rows| - 1];
      PairTotalsAreLinks(init, p);
      assert rows == init + [r] && forall x :: x in rows <==> x in init || x == r;
      assert Contributes(r.link, p) <==> FlowLinkEnds(r.link) == Some(p);
      if Contributes(r.link, p) {
        if p !in PairTotals(init) {
          NothingBetween(init, p);
        }
        OneMoreBetween(init, r, p, if p in PairTotals(init) then PairTotals(init)[p] else NoLinks);
      } else if p in PairTotals(init) {
        OneMoreElsewhere(init, r, p, PairTotals(init)[p]);
      }
    }
  }

  // ----- one leg

  ghost predicate TypeFigures(rows: seq<DetailRow>, p: Pair, t: (string, TypeTotal), code: string) {
    && t.1.count == CountWhere(rows, OfType(p, t.0))
    && Get(t.1.total, code) == SumWhere(rows, OfType(p, t.0), code)
  }

  /** The types of a pair's links, each once, the largest first. */
  ghost predicate TypesFigures(rows: seq<DetailRow>, p: Pair, types: seq<(string, TypeTotal)>) {
    && (forall k :: ShowsType(types, k) <==> HasType(rows, p, k))
    && (forall i, j :: 0 <= i < j < |types| ==> types[i].0 != types[j].0)
    && (forall i, code :: 0 <= i < |types| ==> TypeFigures(rows, p, types[i], code))
    && (forall i, j :: 0 <= i < j < |types| ==> !RanksBefore(types[j].1.total, types[i].1.total))
  }

  /** A leg shows the links of its pair: how many, how much in each currency,
      and the same for every type among them. */
  ghost predicate LegFigures(rows: seq<DetailRow>, leg: ReportLeg) {
    && leg.count == CountWhere(rows, Between(leg.pair))
    && (forall code :: Get(leg.amount, code) == SumWhere(rows, Between(leg.pair), code))
    && TypesFigures(rows, leg.pair, leg.types)
  }

  lemma TypeLeTransitive(a: (string, TypeTotal), b: (string, TypeTotal), c: (string, TypeTotal))
    requires TypeLe(a, b) && TypeLe(b, c)
    ensures TypeLe(a, c)
  {
    var x, y, z := a.1.total, b.1.total, c.1.total;
    CompareDecides(x, y);
    CompareDecides(y, z);
    CompareDecides(x, z);
    if RanksBefore(x, y) && RanksBefore(y, z) {
      RanksTransitive(x, y, z);
    } else if RanksBefore(x, y) {
      SameTotalsRank(y, z, x);
    } else {
      SameTotalsRank(x, y, z);
      if SameTotals(y, z) {
        StrLeTransitive(a.0, b.0, c.0);
      }
    }
  }

  lemma TypeOrder()
    ensures TotalPreorder(TypeLe)
  {
    TotalsArePreordered();
    forall a, b ensures TypeLe(a, b) || TypeLe(b, a) {
      CompareDecides(a.1.total, b.1.total);
      CompareDecides(b.1.total, a.1.total);
      StrLeTotal(a.0, b.0);
    }
    forall a, b, c | TypeLe(a, b) && TypeLe(b, c) ensures TypeLe(a, c) {
      TypeLeTransitive(a, b, c);
    }
  }

  /** Every type once, with its totals, in some order. */
  ghost predicate Lists(types: map<string, TypeTotal>, out: seq<(string, TypeTotal)>) {
    && (forall i :: 0 <= i < |out| ==> out[i].0 in types && out[i].1 == types[out[i].0])
    && (forall k :: k in types ==> ShowsType(out, k))
    && (forall i, j :: 0 <= i < j < |out| ==> out[i].0 != out[j].0)
  }

  lemma SortMember<T>(le: (T, T) -> bool, s: seq<T>, x: T)
    ensures x in SortBy(le, s) <==> x in s
  {
    SortMembers(le, s);
  }

  lemma SortedStillLists(types: map<string, TypeTotal>, listed: seq<(string, TypeTotal)>)
    requires Lists(types, listed)
    ensures Lists(types, SortBy(TypeLe, listed))
  {
    var out := SortBy(TypeLe, listed);
    SortDistinct(TypeLe, listed);
    forall i | 0 <= i < |out|
      ensures out[i].0 in types && out[i].1 == types[out[i].0]
    {
      SortMember(TypeLe, listed, out[i]);
    }
    forall k | k in types
      ensures ShowsType(out, k)
    {
      var i :| 0 <= i < |listed| && listed[i].0 == k;
      SortMember(TypeLe, listed, listed[i]);
    }
    forall i, j | 0 <= i < j < |out|
      ensures out[i].0 != out[j].0
    {
      assert out[i] != out[j];
    }
  }

  lemma SortedByTotal(listed: seq<(string, TypeTotal)>)
    ensures var out := SortBy(TypeLe, listed);
            forall i, j :: 0 <= i < j < |out| ==> !RanksBefore(out[j].1.total, out[i].1.total)
  {
    var out := SortBy(TypeLe, listed);
    TypeOrder();
    SortSorted(TypeLe, listed);
    forall i, j | 0 <= i < j < |out|
      ensures !RanksBefore(out[j].1.total, out[i].1.total)
    {
      assert TypeLe(out[i], out[j]);
      CompareDecides(out[i].1.total, out[j].1.total);
    }
  }

  lemma NamesList(types: map<string, TypeTotal>, names: seq<string>, listed: seq<(string, TypeTotal)>)
    requires names == SortedStrings(types.Keys) && |listed| == |names|
    requires forall i :: 0 <= i < |names| ==> names[i] in types && listed[i] == (names[i], types[names[i]])
    ensures Lists(types, listed)
  {
    SortedStringsSpec(types.Keys);
    forall k | k in types
      ensures ShowsType(listed, k)
    {
      var i :| 0 <= i < |names| && names[i] == k;
      assert listed[i].0 == k;
    }
  }

  lemma ListedFigures(rows: seq<DetailRow>, p: Pair, types: map<string, TypeTotal>, out: seq<(string, TypeTotal)>)
    requires TypesAre(rows, p, types) && Lists(types, out)
    requires forall i, j :: 0 <= i < j < |out| ==> !RanksBefore(out[j].1.total, out[i].1.total)
    ensures TypesFigures(rows, p, out)
  {
    forall k
      ensures ShowsType(out, k) <==> HasType(rows, p, k)
    {
      assert TypeIs(rows, p, types, k);
    }
    forall i, code | 0 <= i < |out|
      ensures TypeFigures(rows, p, out[i], code)
    {
      assert TypeIs(rows, p, types, out[i].0);
    }
  }

  lemma RenderedLeg(rows: seq<DetailRow>, p: Pair)
    requires p in PairTotals(rows)
    ensures LegFigures(rows, RenderLeg(PairTotals(rows), p)) && RenderLeg(PairTotals(rows), p).pair == p
  {
    PairTotalsAreLinks(rows, p);
    var types, leg := PairTotals(rows)[p].types, RenderLeg(PairTotals(rows), p);
    var names := SortedStrings(types.Keys);
    SortedStringsSpec(types.Keys);
    var listed := seq(|names|, i requires 0 <= i < |names| => (names[i], types[names[i]]));
    NamesList(types, names, listed);
    SortedStillLists(types, listed);
    SortedByTotal(listed);
    assert leg.types == SortBy(TypeLe, listed);
    ListedFigures(rows, p, types, leg.types);
  }

  // ----- the whole report

  function LegCounts(legs: seq<ReportLeg>): nat {
    if legs == [] then 0 else legs[0].count + LegCounts(legs[1..])
  }

  lemma {:induction false} LegCountsLast(legs: seq<ReportLeg>)
    requires legs != []
    ensures LegCounts(legs) == LegCounts(legs[..|legs| - 1]) + legs[|legs| - 1].count
  {
    if |legs| > 1 {
      LegCountsLast(legs[1..]);
      assert legs[1..][..|legs| - 2] == legs[..|legs| - 1][1..];
    }
  }

  lemma {:induction false} CountIsLegCounts(legs: seq<ReportLeg>)
    ensures CountOf(legs) == LegCounts(legs)
  {
    if legs != [] {
      CountIsLegCounts(legs[..|legs| - 1]);
      LegCountsLast(legs);
    }
  }

  function NetSum(cycles: seq<ReportCycle>, code: string): int {
    if cycles == [] then 0
    else NetSum(cycles[..|cycles| - 1], code) + Get(cycles[|cycles| - 1].net, code)
  }

  lemma {:induction false} CircularIsNetSum(cycles: seq<ReportCycle>, code: string)
    ensures Get(CircularOf(cycles), code) == NetSum(cycles, code)
  {
    if cycles != [] {
      CircularIsNetSum(cycles[..|cycles| - 1], code);
    }
  }

  /** `least` is the smallest amount of a currency among the legs that hold it. */
  predicate IsLeast(legs: seq<ReportLeg>, code: string, least: int) {
    && (exists i :: 0 <= i < |legs| && code in legs[i].amount && legs[i].amount[code] == least)
    && (forall i :: 0 <= i < |legs| && code in legs[i].amount ==> least <= legs[i].amount[code])
  }

  /** A cycle's legs run around its accounts; its gross is their sum, its net the
      least that a currency's legs hold of it, and its count all of their
      links. */
  ghost predicate CycleFigures(rows: seq<DetailRow>, c: ReportCycle) {
    && |c.legs| == |c.accounts| >= 2
    && (forall j :: 0 <= j < |c.legs| ==> c.legs[j].pair == LegPair(c.accounts, j) && LegFigures(rows, c.legs[j]))
    && (forall code :: Get(c.gross, code) == LegSum(c.legs, code))
    && (forall code :: code in c.net <==> exists j :: 0 <= j < |c.legs| && code in c.legs[j].amount)
    && (forall code :: code in c.net ==> IsLeast(c.legs, code, c.net[code]))
    && c.transactions == LegCounts(c.legs)
  }

  lemma RenderedLegs(rows: seq<DetailRow>, c: Cycle, j: nat)
    requires CycleOk(Gross(Links(rows)), c) && LegsIn(PairTotals(rows), c) && j < |c.legs|
    ensures var leg := RenderLegs(PairTotals(rows), c)[j];
            leg.pair == LegPair(c.nodes, j) && LegFigures(rows, leg)
  {
    RenderedLeg(rows, c.legs[j].pair);
  }

  lemma FoldedFigures(legs: seq<ReportLeg>)
    ensures forall code :: Get(GrossOf(legs), code) == LegSum(legs, code)
    ensures forall code :: code in NetOf(legs) <==> exists j :: 0 <= j < |legs| && code in legs[j].amount
    ensures forall code :: code in NetOf(legs) ==> IsLeast(legs, code, NetOf(legs)[code])
    ensures CountOf(legs) == LegCounts(legs)
  {
    CountIsLegCounts(legs);
    forall code
      ensures Get(GrossOf(legs), code) == LegSum(legs, code)
      ensures code in NetOf(legs) <==> exists j :: 0 <= j < |legs| && code in legs[j].amount
      ensures code in NetOf(legs) ==> IsLeast(legs, code, NetOf(legs)[code])
    {
      GrossIsLegSum(legs, code);
      NetIsSmallestHolding(legs, code);
    }
  }

  lemma RenderedFigures(rows: seq<DetailRow>, c: Cycle)
    requires CycleOk(Gross(Links(rows)), c) && LegsIn(PairTotals(rows), c)
    ensures CycleFigures(rows, RenderCycle(PairTotals(rows), c))
  {
    var legs := RenderLegs(PairTotals(rows), c);
    forall j | 0 <= j < |legs|
      ensures legs[j].pair == LegPair(c.nodes, j) && LegFigures(rows, legs[j])
    {
      RenderedLegs(rows, c, j);
    }
    FoldedFigures(legs);
  }

  lemma SidesFigures(rows: seq<DetailRow>)
    ensures forall k :: 0 <= k < |ReportOf(rows).oneSided| ==> LegFigures(rows, ReportOf(rows).oneSided[k])
  {
    var sides := OneSidedPairs(PairTotals(rows), CyclesOf(rows));
    PairOrder();
    SortSetSpec(PairLe, sides);
    var listed := SortSet(PairLe, sides);
    forall k | 0 <= k < |ReportOf(rows).oneSided|
      ensures LegFigures(rows, ReportOf(rows).oneSided[k])
    {
      assert listed[k] in sides;
      RenderedLeg(rows, listed[k]);
    }
  }

  /** Every figure of the report: each cycle's gross, net and count, every leg's
      and one-sided flow's amount, count and types, and the circular total. */
  lemma ReportFigures(rows: seq<DetailRow>)
    ensures var r := ReportOf(rows);
            && (forall i :: 0 <= i < |r.cycles| ==> CycleFigures(rows, r.cycles[i]))
            && (forall k :: 0 <= k < |r.oneSided| ==> LegFigures(rows, r.oneSided[k]))
            && (forall code :: Get(r.totalCircular, code) == NetSum(r.cycles, code))
  {
    var r, cs, pairs := ReportOf(rows), CyclesOf(rows), PairTotals(rows);
    AccountFlows.GrossNoSelfLoops(Links(rows));
    ReportedLegsAreFlows(rows);
    forall i | 0 <= i < |r.cycles|
      ensures CycleFigures(rows, r.cycles[i])
    {
      assert cs[i] in cs;
      ReportedLegs(Gross(Links(rows)), cs[i]);
      RenderedFigures(rows, cs[i]);
    }
    SidesFigures(rows);
    forall code {
      CircularIsNetSum(r.cycles, code);
    }
  }
}
