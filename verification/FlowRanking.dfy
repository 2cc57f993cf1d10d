/** Ordering per-currency totals without adding across currencies, and the cap
    of a stage to its largest nodes. */
module FlowRanking {
  import opened Ordering
  import opened Currency

  ghost predicate AgreeBefore(a: Amounts, b: Amounts, d: string) {
    forall e :: StrLe(e, d) && e != d ==> Get(a, e) == Get(b, e)
  }

  ghost predicate DecidedAt(a: Amounts, b: Amounts, d: string) {
    Get(a, d) > Get(b, d) && AgreeBefore(a, b, d)
  }

  /** `a` ranks before `b`: in the first currency in which they differ, `a` holds
      more. An absent code reads as zero. */
  ghost predicate RanksBefore(a: Amounts, b: Amounts) {
    exists d :: DecidedAt(a, b, d)
  }

  ghost predicate SameTotals(a: Amounts, b: Amounts) {
    forall code :: Get(a, code) == Get(b, code)
  }

  function CompareOver(a: Amounts, b: Amounts, codes: seq<string>): int {
    if codes == [] then 0
    else if Get(a, codes[0]) == Get(b, codes[0]) then CompareOver(a, b, codes[1..])
    else if Get(a, codes[0]) > Get(b, codes[0]) then -1
    else 1
  }

  function CompareFlowTotals(a: Amounts, b: Amounts): int {
    CompareOver(a, b, SortedStrings(a.Keys + b.Keys))
  }

  /** The comparison as the program runs it. */
  method CompareTotals(a: Amounts, b: Amounts) returns (r: int)
    ensures r == CompareFlowTotals(a, b)
  {
    var codes := SortedStrings(a.Keys + b.Keys);
    var i := 0;
    while i < |codes|
      invariant 0 <= i <= |codes|
      invariant CompareOver(a, b, codes) == CompareOver(a, b, codes[i..])
    {
      var code := codes[i];
      assert codes[i..][0] == code && codes[i..][1..] == codes[i + 1..];
      if Get(a, code) != Get(b, code) {
        return if Get(a, code) > Get(b, code) then -1 else 1;
      }
      i := i + 1;
    }
    return 0;
  }

  lemma {:induction false} CompareOverSpec(a: Amounts, b: Amounts, codes: seq<string>)
    requires Sorted(StrLe, codes) && Distinct(codes)
    requires forall e :: e !in codes && (exists x :: x in codes && StrLe(e, x)) ==> Get(a, e) == Get(b, e)
    ensures CompareOver(a, b, codes) < 0 ==> exists d :: d in codes && DecidedAt(a, b, d)
    ensures CompareOver(a, b, codes) > 0 ==> exists d :: d in codes && DecidedAt(b, a, d)
    ensures CompareOver(a, b, codes) == 0 ==> forall e :: e in codes ==> Get(a, e) == Get(b, e)
  {
    if codes != [] {
      var c := codes[0];
      if Get(a, c) == Get(b, c) {
        forall e | e !in codes[1..] && (exists x :: x in codes[1..] && StrLe(e, x)) ensures Get(a, e) == Get(b, e) {
          var x :| x in codes[1..] && StrLe(e, x);
          assert x in codes;
          assert e == c || e !in codes;
        }
        CompareOverSpec(a, b, codes[1..]);
      } else {
        forall e | StrLe(e, c) && e != c ensures Get(a, e) == Get(b, e) {
          assert c in codes;
          if e in codes {
            var k :| 0 <= k < |codes| && codes[k] == e;
            assert StrLe(c, e);
            StrLeAntisymmetric(c, e);
          }
        }
        assert AgreeBefore(a, b, c) && AgreeBefore(b, a, c);
        assert c in codes;
      }
    }
  }

  lemma {:induction false} CompareOverRange(a: Amounts, b: Amounts, codes: seq<string>)
    ensures CompareOver(a, b, codes) in [-1, 0, 1]
  {
    if codes != [] { CompareOverRange(a, b, codes[1..]); }
  }

  lemma RanksAsymmetric(a: Amounts, b: Amounts)
    requires RanksBefore(a, b)
    ensures !RanksBefore(b, a)
  {
    if RanksBefore(b, a) {
      var d :| DecidedAt(a, b, d);
      var e :| DecidedAt(b, a, e);
      StrLeTotal(d, e);
      assert false;
    }
  }

  /** The comparison decides by the first differing currency, and says equal
      exactly when every currency agrees, although it only looks at the codes
      of its two operands. */
  lemma CompareDecides(a: Amounts, b: Amounts)
    ensures CompareFlowTotals(a, b) == -1 <==> RanksBefore(a, b)
    ensures CompareFlowTotals(a, b) == 1 <==> RanksBefore(b, a)
    ensures CompareFlowTotals(a, b) == 0 <==> SameTotals(a, b)
    ensures CompareFlowTotals(a, b) in [-1, 0, 1]
  {
    var codes := SortedStrings(a.Keys + b.Keys);
    SortedStringsSpec(a.Keys + b.Keys);
    CompareOverSpec(a, b, codes);
    CompareOverRange(a, b, codes);
    if SameTotals(a, b) {
      assert !RanksBefore(a, b) && !RanksBefore(b, a);
    }
    if RanksBefore(a, b) && RanksBefore(b, a) {
      RanksAsymmetric(a, b);
    }
  }

  lemma AgreeLower(a: Amounts, b: Amounts, d: string, m: string)
    requires AgreeBefore(a, b, d) && StrLe(m, d)
    ensures AgreeBefore(a, b, m)
  {
    forall x | StrLe(x, m) && x != m ensures Get(a, x) == Get(b, x) {
      StrLeTransitive(x, m, d);
      if x == d { StrLeAntisymmetric(x, m); }
    }
  }

  lemma RanksTransitive(a: Amounts, b: Amounts, c: Amounts)
    requires RanksBefore(a, b) && RanksBefore(b, c)
    ensures RanksBefore(a, c)
  {
    var d :| DecidedAt(a, b, d);
    var e :| DecidedAt(b, c, e);
    StrLeTotal(d, e);
    var m := if StrLe(d, e) then d else e;
    StrLeTotal(m, m);
    AgreeLower(a, b, d, m);
    AgreeLower(b, c, e, m);
    assert Get(a, m) >= Get(b, m) >= Get(c, m);
    assert DecidedAt(a, c, m);
  }

  lemma SameTotalsRank(a: Amounts, b: Amounts, c: Amounts)
    requires SameTotals(a, b)
    ensures RanksBefore(a, c) <==> RanksBefore(b, c)
    ensures RanksBefore(c, a) <==> RanksBefore(c, b)
  {
    if RanksBefore(a, c) { var d :| DecidedAt(a, c, d); assert DecidedAt(b, c, d); }
    if RanksBefore(b, c) { var d :| DecidedAt(b, c, d); assert DecidedAt(a, c, d); }
    if RanksBefore(c, a) { var d :| DecidedAt(c, a, d); assert DecidedAt(c, b, d); }
    if RanksBefore(c, b) { var d :| DecidedAt(c, b, d); assert DecidedAt(c, a, d); }
  }

  predicate TotalsLe(a: Amounts, b: Amounts) {
    CompareFlowTotals(a, b) <= 0
  }

  lemma TotalsLeTransitive(a: Amounts, b: Amounts, c: Amounts)
    requires TotalsLe(a, b) && TotalsLe(b, c)
    ensures TotalsLe(a, c)
  {
    CompareDecides(a, b);
    CompareDecides(b, c);
    CompareDecides(a, c);
    if RanksBefore(a, b) && RanksBefore(b, c) {
      RanksTransitive(a, b, c);
    } else if SameTotals(a, b) {
      SameTotalsRank(a, b, c);
    } else {
      SameTotalsRank(b, c, a);
    }
  }

  /** The comparison is a total preorder, although each comparison walks a
      different union of currencies. */
  lemma TotalsArePreordered()
    ensures TotalPreorder(TotalsLe)
  {
    forall a, b ensures TotalsLe(a, b) || TotalsLe(b, a) {
      CompareDecides(a, b);
      CompareDecides(b, a);
      if RanksBefore(a, b) { RanksAsymmetric(a, b); }
    }
    forall a, b, c | TotalsLe(a, b) && TotalsLe(b, c) ensures TotalsLe(a, c) {
      TotalsLeTransitive(a, b, c);
    }
  }

  // ----- capping a stage

  /** Largest total first, ties by id. */
  predicate NodeLe(m: map<string, Amounts>, x: string, y: string) {
    if x in m && y in m then
      var c := CompareFlowTotals(m[x], m[y]);
      if c != 0 then c < 0 else StrLe(x, y)
    else if x in m || y in m then x in m
    else StrLe(x, y)
  }

  lemma StrLeAntisymmetricIf(x: string, y: string)
    ensures StrLe(x, y) && StrLe(y, x) ==> x == y
  {
    if StrLe(x, y) && StrLe(y, x) { StrLeAntisymmetric(x, y); }
  }

  lemma NodeFlip(m: map<string, Amounts>, x: string, y: string)
    requires x in m && y in m
    ensures CompareFlowTotals(m[x], m[y]) == -CompareFlowTotals(m[y], m[x])
  {
    CompareDecides(m[x], m[y]);
    CompareDecides(m[y], m[x]);
    if RanksBefore(m[x], m[y]) { RanksAsymmetric(m[x], m[y]); }
  }

  lemma NodeLeTransitive(m: map<string, Amounts>, x: string, y: string, z: string)
    requires NodeLe(m, x, y) && NodeLe(m, y, z)
    ensures NodeLe(m, x, z)
  {
    if x in m && y in m && z in m {
      var a, b, c := m[x], m[y], m[z];
      CompareDecides(a, b);
      CompareDecides(b, c);
      CompareDecides(a, c);
      if SameTotals(a, b) {
        SameTotalsRank(a, b, c);
        if SameTotals(b, c) { StrLeTransitive(x, y, z); }
      } else if SameTotals(b, c) {
        SameTotalsRank(b, c, a);
      } else {
        RanksTransitive(a, b, c);
      }
    } else if x !in m && y !in m && z !in m {
      StrLeTransitive(x, y, z);
    }
  }

  lemma NodeOrder(m: map<string, Amounts>)
    ensures TotalPreorder((x, y) => NodeLe(m, x, y)) && Antisymmetric((x, y) => NodeLe(m, x, y))
  {
    var le := (x, y) => NodeLe(m, x, y);
    forall x, y ensures le(x, y) || le(y, x) {
      StrLeTotal(x, y);
      if x in m && y in m { NodeFlip(m, x, y); }
    }
    forall x, y, z | le(x, y) && le(y, z) ensures le(x, z) {
      NodeLeTransitive(m, x, y, z);
    }
    forall x, y | le(x, y) && le(y, x) ensures x == y {
      if x in m && y in m { NodeFlip(m, x, y); }
      StrLeAntisymmetricIf(x, y);
    }
  }

  ghost function RankedNodes(m: map<string, Amounts>): seq<string> {
    SortSet((x, y) => NodeLe(m, x, y), m.Keys)
  }

  function Cap(limit: int, n: nat): (k: nat)
    ensures k <= n
  {
    if limit < 0 then 0 else if limit < n then limit else n
  }

  function FirstOf(ids: seq<string>, n: nat): set<string>
    requires n <= |ids|
  {
    set i | 0 <= i < n :: ids[i]
  }

  /** The ids of the `limit` largest nodes; a limit of zero or less keeps none. */
  ghost function KeepTop(m: map<string, Amounts>, limit: int): set<string> {
    FirstOf(RankedNodes(m), Cap(limit, |RankedNodes(m)|))
  }

  lemma {:induction false} DistinctSize<T>(s: seq<T>, keys: set<T>)
    requires Distinct(s) && forall x :: x in s <==> x in keys
    ensures |s| == |keys|
  {
    if s == [] {
      assert keys == {};
    } else {
      var rest := keys - {s[0]};
      assert s[0] in keys;
      forall x ensures x in s[1..] <==> x in rest { TailMembers(s, x); }
      DistinctSize(s[1..], rest);
    }
  }

  lemma RankedNodesSpec(m: map<string, Amounts>)
    ensures var ids := RankedNodes(m);
            && Distinct(ids) && (forall x :: x in ids <==> x in m) && |ids| == |m|
            && (forall i, j :: 0 <= i < j < |ids| ==> NodeLe(m, ids[i], ids[j]))
  {
    NodeOrder(m);
    var le := (x, y) => NodeLe(m, x, y);
    SortSetSpec(le, m.Keys);
    var ids := RankedNodes(m);
    assert Sorted(le, ids);
    DistinctSize(ids, m.Keys);
  }

  // A node ranked earlier holds no less.
  lemma EarlierHoldsMore(m: map<string, Amounts>, x: string, y: string)
    requires x in m && y in m && NodeLe(m, x, y)
    ensures !RanksBefore(m[y], m[x])
  {
    CompareDecides(m[x], m[y]);
    if RanksBefore(m[x], m[y]) { RanksAsymmetric(m[x], m[y]); }
  }

  lemma FirstAreKept(ids: seq<string>, n: nat)
    requires n <= |ids| && Distinct(ids)
    ensures |FirstOf(ids, n)| == n
    ensures forall j :: 0 <= j < |ids| && ids[j] !in FirstOf(ids, n) ==> j >= n
  {
    assert forall x :: x in FirstOf(ids, n) <==> x in ids[..n];
    DistinctSize(ids[..n], FirstOf(ids, n));
  }

  /** A capped stage keeps min(limit, n) nodes and no node that is kept ranks
      after one that is rolled up. */
  lemma KeepTopKeepsTheLargest(m: map<string, Amounts>, limit: int)
    ensures KeepTop(m, limit) <= m.Keys
    ensures |KeepTop(m, limit)| == if limit < 0 then 0 else if limit < |m| then limit else |m|
    ensures forall x, y :: x in KeepTop(m, limit) && y in m && y !in KeepTop(m, limit) ==>
              !RanksBefore(m[y], m[x])
  {
    RankedNodesSpec(m);
    var ids := RankedNodes(m);
    var n := Cap(limit, |ids|);
    FirstAreKept(ids, n);
    forall x | x in KeepTop(m, limit) ensures x in m {
      assert x in ids;
    }
    forall x, y | x in KeepTop(m, limit) && y in m && y !in KeepTop(m, limit) ensures !RanksBefore(m[y], m[x]) {
      var i :| 0 <= i < n && ids[i] == x;
      var j :| 0 <= j < |ids| && ids[j] == y;
      EarlierHoldsMore(m, ids[i], ids[j]);
    }
  }

  /** Sorting the nodes gives one ranking, whatever order they were listed in. */
  method RankNodes(m: map<string, Amounts>, listing: seq<string>) returns (ids: seq<string>)
    requires Distinct(listing) && forall x :: x in listing <==> x in m
    ensures ids == RankedNodes(m)
  {
    NodeOrder(m);
    var le := (x: string, y: string) => NodeLe(m, x, y);
    SortListing(le, listing, m.Keys);
    ids := SortBy(le, listing);
  }

  method TakeFirst(ids: seq<string>, limit: int) returns (kept: set<string>)
    ensures kept == FirstOf(ids, Cap(limit, |ids|))
  {
    kept := {};
    var i := 0;
    while i < |ids| && i < limit
      invariant 0 <= i <= |ids| && (limit >= 0 ==> i <= limit) && (limit < 0 ==> i == 0)
      invariant kept == FirstOf(ids, i)
    {
      kept := kept + {ids[i]};
      i := i + 1;
    }
  }

  /** The cap as the program runs it. */
  method KeepTopFlowNodes(m: map<string, Amounts>, listing: seq<string>, limit: int) returns (kept: set<string>)
    requires Distinct(listing) && forall x :: x in listing <==> x in m
    ensures kept == KeepTop(m, limit)
  {
    var ids := RankNodes(m, listing);
    kept := TakeFirst(ids, limit);
  }
}
