/** What the aggregated and netted flows mean in terms of the raw links. */
module FlowMeaning {
  import opened Options
  import opened Ordering
  import opened Currency
  import opened AccountGraph
  import opened WalkProofs
  import opened FlowTheorems
  import opened FlowAccounting
  import AccountFlows

  /** The account on the debit or the credit side of a mixed link, whichever end
      it is stored at. */
  function SideOf(r: LinkRow, side: TxnType): AccountId
    requires r.fromType != r.toType
  {
    if r.fromType == side then r.fromAcct else r.toAcct
  }

  /** A link between a debit and a credit side of two accounts counts for the
      pair from the debit side to the credit side; one between two sides of a
      kind counts as it is stored. */
  predicate Contributes(r: LinkRow, p: Pair) {
    && p.src != p.dst
    && if r.fromType == r.toType then r.fromAcct == p.src && r.toAcct == p.dst
       else SideOf(r, Debit) == p.src && SideOf(r, Credit) == p.dst
  }

  /** What the links of one directed pair add up to in one currency. */
  function LinkSum(rows: seq<LinkRow>, p: Pair, code: string): int {
    if rows == [] then 0
    else
      var r := rows[|rows| - 1];
      LinkSum(rows[..|rows| - 1], p, code) + if Contributes(r, p) && r.currency == code then r.amount else 0
  }

  // A code is present once a non-zero amount has been folded in.
  predicate Touches(rows: seq<LinkRow>, p: Pair, code: string) {
    exists r :: r in rows && Contributes(r, p) && r.currency == code && r.amount != 0
  }

  /** The gross flows hold, for every pair with a link, the sum of its links. */
  lemma {:induction false} GrossIsLinkSum(rows: seq<LinkRow>, p: Pair, code: string)
    ensures p in Gross(rows) <==> exists r :: r in rows && Contributes(r, p)
    ensures p in Gross(rows) ==> Get(Gross(rows)[p], code) == LinkSum(rows, p, code)
    ensures p in Gross(rows) ==> (code in Gross(rows)[p] <==> Touches(rows, p, code))
    ensures p !in Gross(rows) ==> LinkSum(rows, p, code) == 0
  {
    if rows != [] {
      var init, r := rows[..|rows| - 1], rows[|rows| - 1];
      GrossIsLinkSum(init, p, code);
      assert rows == init + [r];
      assert Contributes(r, p) <==> FlowLinkEnds(r) == Some(p);
      assert forall x :: x in rows <==> x in init || x == r;
      if Contributes(r, p) {
        AddGet(if p in Gross(init) then Gross(init)[p] else map[], r.currency, r.amount, code);
      }
    }
  }

  lemma {:induction false} LinkSumMoved(rows: seq<LinkRow>, k: nat, p: Pair, code: string)
    requires k < |rows|
    ensures LinkSum(rows, p, code) == LinkSum(rows[..k] + rows[k + 1..] + [rows[k]], p, code)
  {
    if k < |rows| - 1 {
      var init := rows[..|rows| - 1];
      LinkSumMoved(init, k, p, code);
      var moved := init[..k] + init[k + 1..] + [rows[k]];
      var short := rows[..k] + rows[k + 1..];
      assert moved[..|moved| - 1] == short[..|short| - 1];
      assert (short + [rows[k]])[..|short|] == short;
    } else {
      assert rows[..k] + rows[k + 1..] + [rows[k]] == rows;
    }
  }

  lemma {:induction false} LinkSumPermuted(rows: seq<LinkRow>, other: seq<LinkRow>, p: Pair, code: string)
    requires multiset(rows) == multiset(other)
    ensures LinkSum(rows, p, code) == LinkSum(other, p, code)
  {
    assert |multiset(rows)| == |rows| && |multiset(other)| == |other|;
    if rows != [] {
      var init, r := rows[..|rows| - 1], rows[|rows| - 1];
      assert rows == init + [r];
      assert r in multiset(other);
      var k :| 0 <= k < |other| && other[k] == r;
      var rest := other[..k] + other[k + 1..];
      WithoutOne(other, k);
      WithoutOne(rows, |rows| - 1);
      assert init + [] == init;
      LinkSumMoved(other, k, p, code);
      assert (rest + [r])[..|rest|] == rest;
      LinkSumPermuted(init, rest, p, code);
    }
  }

  lemma SameAmounts(m: Amounts, n: Amounts)
    requires forall code :: code in m <==> code in n
    requires forall code :: Get(m, code) == Get(n, code)
    ensures m == n
  {
    forall code | code in m ensures m[code] == n[code] {
      assert Get(m, code) == Get(n, code);
    }
  }

  /** The graph and its cycles depend on the links alone, not on the order in
      which the database returned them. */
  lemma RowOrderIsIrrelevant(rows: seq<LinkRow>, other: seq<LinkRow>)
    requires multiset(rows) == multiset(other)
    ensures Gross(rows) == Gross(other)
  {
    forall r ensures r in rows <==> r in other {
      assert r in multiset(rows) <==> r in multiset(other);
    }
    forall p ensures p in Gross(rows) <==> p in Gross(other) {
      GrossIsLinkSum(rows, p, "");
      GrossIsLinkSum(other, p, "");
    }
    forall p | p in Gross(rows) ensures Gross(rows)[p] == Gross(other)[p] {
      forall code ensures code in Gross(rows)[p] <==> code in Gross(other)[p]
        ensures Get(Gross(rows)[p], code) == Get(Gross(other)[p], code)
      {
        GrossIsLinkSum(rows, p, code);
        GrossIsLinkSum(other, p, code);
        LinkSumPermuted(rows, other, p, code);
      }
      SameAmounts(Gross(rows)[p], Gross(other)[p]);
    }
  }

  /** The same link, stored from its other end. */
  function Exchanged(r: LinkRow): LinkRow {
    r.(fromType := r.toType, toType := r.fromType, fromAcct := r.toAcct, toAcct := r.fromAcct)
  }

  ghost predicate SameLinks(rows: seq<LinkRow>, other: seq<LinkRow>) {
    && |rows| == |other|
    && forall k :: 0 <= k < |rows| ==>
         other[k] == rows[k] || (rows[k].fromType != rows[k].toType && other[k] == Exchanged(rows[k]))
  }

  lemma {:induction false} LinkSumExchanged(rows: seq<LinkRow>, other: seq<LinkRow>, p: Pair, code: string)
    requires SameLinks(rows, other)
    ensures LinkSum(rows, p, code) == LinkSum(other, p, code)
  {
    if rows != [] {
      var n := |rows| - 1;
      LinkSumExchanged(rows[..n], other[..n], p, code);
      assert Contributes(rows[n], p) == Contributes(other[n], p);
    }
  }

  lemma TouchesExchanged(rows: seq<LinkRow>, other: seq<LinkRow>, p: Pair, code: string)
    requires SameLinks(rows, other) && Touches(rows, p, code)
    ensures Touches(other, p, code)
  {
    var r :| r in rows && Contributes(r, p) && r.currency == code && r.amount != 0;
    var k :| 0 <= k < |rows| && rows[k] == r;
    assert other[k] in other && Contributes(other[k], p);
  }

  lemma PairsExchanged(rows: seq<LinkRow>, other: seq<LinkRow>, p: Pair)
    requires SameLinks(rows, other) && p in Gross(rows)
    ensures p in Gross(other)
  {
    GrossIsLinkSum(rows, p, "");
    GrossIsLinkSum(other, p, "");
    var r :| r in rows && Contributes(r, p);
    var k :| 0 <= k < |rows| && rows[k] == r;
    assert other[k] in other && Contributes(other[k], p);
  }

  lemma SameGross(rows: seq<LinkRow>, other: seq<LinkRow>, p: Pair)
    requires SameLinks(rows, other) && p in Gross(rows) && p in Gross(other)
    ensures Gross(rows)[p] == Gross(other)[p]
  {
    assert SameLinks(other, rows);
    forall code
      ensures code in Gross(rows)[p] <==> code in Gross(other)[p]
      ensures Get(Gross(rows)[p], code) == Get(Gross(other)[p], code)
    {
      GrossIsLinkSum(rows, p, code);
      GrossIsLinkSum(other, p, code);
      LinkSumExchanged(rows, other, p, code);
      if Touches(rows, p, code) { TouchesExchanged(rows, other, p, code); }
      if Touches(other, p, code) { TouchesExchanged(other, rows, p, code); }
    }
    SameAmounts(Gross(rows)[p], Gross(other)[p]);
  }

  /** Which end a mixed link is stored from makes no difference: exchanging the
      ends of any of them leaves the drawn edges and the cycles as they were. */
  lemma StoredEndIsIrrelevant(rows: seq<LinkRow>, other: seq<LinkRow>)
    requires SameLinks(rows, other)
    ensures NoSelfLoops(Gross(rows)) && NoSelfLoops(Gross(other))
    ensures Analyze(Gross(rows)) == Analyze(Gross(other))
  {
    AccountFlows.GrossNoSelfLoops(rows);
    AccountFlows.GrossNoSelfLoops(other);
    assert SameLinks(other, rows);
    forall p ensures p in Gross(rows) <==> p in Gross(other) {
      if p in Gross(rows) { PairsExchanged(rows, other, p); }
      if p in Gross(other) { PairsExchanged(other, rows, p); }
    }
    forall p | p in Gross(rows) ensures Gross(rows)[p] == Gross(other)[p] {
      SameGross(rows, other, p);
    }
    assert Gross(rows) == Gross(other);
  }

  // ----- netting

  lemma NettedAmount(gross: Flows, p: Pair, code: string)
    requires p in Netted(gross)
    ensures p in gross
    ensures var there, back := Get(gross[p], code), if Reverse(p) in gross then Get(gross[Reverse(p)], code) else 0;
            Get(Netted(gross)[p], code)
            == if Reverse(p) !in gross then there else if code in gross[p] && there > back then there - back else 0
  {
  }

  /** What is drawn for a pair is, in every currency its links hold, what they
      exceed those of the other direction by, and the whole of it when none goes
      back. */
  lemma DrawnIsTheExcess(rows: seq<LinkRow>, e: FlowEdge, code: string)
    requires NoSelfLoops(Gross(rows)) && e in Analyze(Gross(rows)).edges
    ensures var there, back := LinkSum(rows, e.pair, code), LinkSum(rows, Reverse(e.pair), code);
            Get(e.value, code)
            == if !exists r :: r in rows && Contributes(r, Reverse(e.pair)) then there
               else if Touches(rows, e.pair, code) && there > back then there - back else 0
  {
    DrawnAre(Gross(rows));
    NettedAmount(Gross(rows), e.pair, code);
    GrossIsLinkSum(rows, e.pair, code);
    GrossIsLinkSum(rows, Reverse(e.pair), code);
  }

  /** Netting one pair leaves the balance between two accounts as it was in a
      currency exactly when no side holds a negative amount the other side does
      not offset; recorded amounts are never negative. */
  lemma NettingKeepsBalance(fwd: Amounts, rev: Amounts, code: string)
    ensures Get(NetFlow(fwd, rev), code) - Get(NetFlow(rev, fwd), code) == Get(fwd, code) - Get(rev, code)
       <==> (code in fwd || Get(rev, code) >= 0) && (code in rev || Get(fwd, code) >= 0)
  {
    assert code in NetFlow(fwd, rev) <==> code in fwd && fwd[code] - Get(rev, code) > 0;
    assert code in NetFlow(rev, fwd) <==> code in rev && rev[code] - Get(fwd, code) > 0;
  }

  /** What netting takes from each side is the smaller of the two amounts, so at
      most one direction survives in any currency. */
  lemma NettingCancelsTheSmaller(fwd: Amounts, rev: Amounts, code: string)
    requires Get(fwd, code) >= 0 && Get(rev, code) >= 0
    ensures var smaller := if Get(fwd, code) < Get(rev, code) then Get(fwd, code) else Get(rev, code);
            && Get(NetFlow(fwd, rev), code) == Get(fwd, code) - smaller
            && Get(NetFlow(rev, fwd), code) == Get(rev, code) - smaller
            && (code !in NetFlow(fwd, rev) || code !in NetFlow(rev, fwd))
  {
    assert code in NetFlow(fwd, rev) <==> code in fwd && fwd[code] - Get(rev, code) > 0;
    assert code in NetFlow(rev, fwd) <==> code in rev && rev[code] - Get(fwd, code) > 0;
  }

  // ----- the shape and order of the reported cycles

  lemma DroppedNotKept(gross: Flows, p: Pair)
    requires NoSelfLoops(gross) && p in FinalWalk(gross).dropped
    ensures p !in FinalWalk(gross).kept
  {
    var rank := WalkSound(gross);
  }

  lemma LoopLegKept(gross: Flows, k: nat, i: nat)
    requires NoSelfLoops(gross) && k < |FinalWalk(gross).cycles|
    requires FinalWalk(gross).cycles[k].kind == Loop && i < |FinalWalk(gross).cycles[k].legs|
    ensures var d := FinalWalk(gross).cycles[k];
            d.legs[i].pair in FinalWalk(gross).kept <==> i < |d.legs| - 1
  {
    WalkCycleOk(gross, k);
    var d := FinalWalk(gross).cycles[k];
    assert d.legs[i].pair == LegPair(d.nodes, i);
    if i == |d.legs| - 1 {
      DroppedNotKept(gross, Closing(d.nodes));
    }
  }

  /** A reported loop is broken at one leg: its closing leg is not drawn, every
      other one is. */
  lemma LoopsAreBrokenAtOneLeg(gross: Flows, c: Cycle, i: nat)
    requires NoSelfLoops(gross) && c in Analyze(gross).cycles && c.kind == Loop && i < |c.legs|
    ensures c.legs[i].pair in DrawnPairs(Analyze(gross).edges) <==> i < |c.legs| - 1
  {
    var k := ReportedFrom(gross, c);
    DrawnAre(gross);
    LoopLegKept(gross, k, i);
  }

  lemma CycleOrder()
    ensures TotalPreorder(CycleLe)
  {
    forall a, b ensures CycleLe(a, b) || CycleLe(b, a) {
      StrLeTotal(Join(a.nodes), Join(b.nodes));
    }
    forall a, b, c | CycleLe(a, b) && CycleLe(b, c) ensures CycleLe(a, c) {
      if a.kind == b.kind == c.kind {
        StrLeTransitive(Join(a.nodes), Join(b.nodes), Join(c.nodes));
      }
    }
  }

  lemma KeysDistinct(unique: seq<Cycle>, cs: seq<Cycle>, i: nat, j: nat)
    requires multiset(unique) == multiset(cs) && i < j < |cs|
    requires forall a, b :: 0 <= a < b < |unique| ==> CycleKey(unique[a]) != CycleKey(unique[b])
    ensures CycleKey(cs[i]) != CycleKey(cs[j])
  {
    assert Distinct(unique);
    DistinctCount(unique);
    DistinctCount(cs);
    assert cs[i] in multiset(unique) && cs[j] in multiset(unique);
  }

  lemma SameHead<T(!new)>(le: (T, T) -> bool, a: seq<T>, b: seq<T>)
    requires Antisymmetric(le) && Sorted(le, a) && Sorted(le, b) && multiset(a) == multiset(b) && a != [] && b != []
    ensures a[0] == b[0]
  {
    assert a[0] in multiset(b) && b[0] in multiset(a);
    assert le(a[0], b[0]) || a[0] == b[0];
    assert le(b[0], a[0]) || a[0] == b[0];
  }

  lemma {:induction false} SortedPermutation<T(!new)>(le: (T, T) -> bool, a: seq<T>, b: seq<T>)
    requires Antisymmetric(le) && Sorted(le, a) && Sorted(le, b) && multiset(a) == multiset(b)
    ensures a == b
  {
    assert |multiset(a)| == |a| && |multiset(b)| == |b|;
    if a != [] {
      SameHead(le, a, b);
      assert a == [a[0]] + a[1..] && b == [b[0]] + b[1..];
      assert multiset(a[1..]) == multiset(a) - multiset{a[0]};
      assert multiset(b[1..]) == multiset(b) - multiset{b[0]};
      SortedPermutation(le, a[1..], b[1..]);
    }
  }

  lemma SameNodesSameKey(c: Cycle, d: Cycle)
    requires multiset(c.nodes) == multiset(d.nodes)
    ensures CycleKey(c) == CycleKey(d)
  {
    StrOrder();
    SortSorted(StrLe, c.nodes);
    SortSorted(StrLe, d.nodes);
    SortMultiset(StrLe, c.nodes);
    SortMultiset(StrLe, d.nodes);
    SortedPermutation(StrLe, SortBy(StrLe, c.nodes), SortBy(StrLe, d.nodes));
  }

  /** No two reported cycles have one set of participants; reciprocal pairs come
      first, then loops, each by the text of their accounts. */
  lemma ReportedOnceInOrder(gross: Flows, i: nat, j: nat)
    requires NoSelfLoops(gross) && i < j < |Analyze(gross).cycles|
    ensures var cs := Analyze(gross).cycles;
            CycleLe(cs[i], cs[j]) && multiset(cs[i].nodes) != multiset(cs[j].nodes)
  {
    var w := FinalWalk(gross);
    var unique := Dedupe(AccountAll(Netted(gross), w.dropped, w.cycles));
    var cs := Analyze(gross).cycles;
    CycleOrder();
    SortSorted(CycleLe, unique);
    DedupeSpec(AccountAll(Netted(gross), w.dropped, w.cycles));
    SortMultiset(CycleLe, unique);
    KeysDistinct(unique, cs, i, j);
    if multiset(cs[i].nodes) == multiset(cs[j].nodes) {
      SameNodesSameKey(cs[i], cs[j]);
    }
  }
}
