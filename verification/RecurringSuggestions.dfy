/** The suggestion page: one candidate per expected occurrence, the best of every
    range first, the rest by score. */
module RecurringSuggestions {
  import opened Ordering

  datatype Candidate = Candidate(txn: int, score: real, occurrence: int, range: int)

  /** Higher scores first, newer occurrences first on ties. */
  predicate RanksBefore(a: Candidate, b: Candidate) {
    a.score > b.score || (a.score == b.score && a.occurrence >= b.occurrence)
  }

  /** What a ranking must not show the other way round: a higher score, or on equal
      scores a newer occurrence. */
  predicate Outranks(a: Candidate, b: Candidate) {
    a.score > b.score || (a.score == b.score && a.occurrence > b.occurrence)
  }

  predicate TakesOccurrence(page: seq<Candidate>, occurrence: int) {
    exists k :: 0 <= k < |page| && page[k].occurrence == occurrence
  }

  predicate ShowsRange(page: seq<Candidate>, range: int) {
    exists k :: 0 <= k < |page| && page[k].range == range
  }

  predicate OnePerOccurrence(page: seq<Candidate>) {
    forall i, j :: 0 <= i < j < |page| ==> page[i].occurrence != page[j].occurrence
  }

  predicate OnePerRange(page: seq<Candidate>) {
    forall i, j :: 0 <= i < j < |page| ==> page[i].range != page[j].range
  }

  /** The maps the two passes fill, as the page has them. */
  ghost predicate Seen(page: seq<Candidate>, occurrences: set<int>, ranges: set<int>) {
    && (forall o :: o in occurrences <==> TakesOccurrence(page, o))
    && (forall r :: r in ranges <==> ShowsRange(page, r))
  }

  lemma SeenGrows(page: seq<Candidate>, occurrences: set<int>, ranges: set<int>, c: Candidate)
    requires Seen(page, occurrences, ranges)
    ensures Seen(page + [c], occurrences + {c.occurrence}, ranges + {c.range})
  {
    var longer := page + [c];
    assert longer[|page|] == c;
    assert forall k :: 0 <= k < |page| ==> longer[k] == page[k];
    forall o
      ensures o in occurrences + {c.occurrence} <==> TakesOccurrence(longer, o)
    {
      if TakesOccurrence(page, o) {
        var k :| 0 <= k < |page| && page[k].occurrence == o;
        assert longer[k].occurrence == o;
      }
    }
    forall r
      ensures r in ranges + {c.range} <==> ShowsRange(longer, r)
    {
      if ShowsRange(page, r) {
        var k :| 0 <= k < |page| && page[k].range == r;
        assert longer[k].range == r;
      }
    }
  }

  /** Candidate `i` is shown, or its occurrence or its range already was. */
  predicate Served(page: seq<Candidate>, c: Candidate) {
    TakesOccurrence(page, c.occurrence) || ShowsRange(page, c.range)
  }

  lemma LongerStillTakes(page: seq<Candidate>, longer: seq<Candidate>, occurrence: int, range: int)
    requires page <= longer
    ensures TakesOccurrence(page, occurrence) ==> TakesOccurrence(longer, occurrence)
    ensures ShowsRange(page, range) ==> ShowsRange(longer, range)
  {
    if TakesOccurrence(page, occurrence) {
      var k :| 0 <= k < |page| && page[k].occurrence == occurrence;
      assert longer[k] == page[k];
    }
    if ShowsRange(page, range) {
      var k :| 0 <= k < |page| && page[k].range == range;
      assert longer[k] == page[k];
    }
  }

  /** Each of the first entries is the best of its range whose occurrence no
      earlier entry had taken. */
  ghost predicate BestFree(ranked: seq<Candidate>, page: seq<Candidate>) {
    forall k, c :: 0 <= k < |page| && c in ranked && c.range == page[k].range && Outranks(c, page[k]) ==>
      TakesOccurrence(page[..k], c.occurrence)
  }

  /** Everything picked so far ranks before everything still to come. */
  ghost predicate PickedInOrder(ranked: seq<Candidate>, i: nat, picked: seq<Candidate>) {
    && Sorted(RanksBefore, picked)
    && forall k, j :: 0 <= k < |picked| && i <= j < |ranked| ==> RanksBefore(picked[k], ranked[j])
  }

  lemma PicksStayInOrder(ranked: seq<Candidate>, i: nat, picked: seq<Candidate>)
    requires i < |ranked| && Sorted(RanksBefore, ranked) && PickedInOrder(ranked, i, picked)
    ensures PickedInOrder(ranked, i + 1, picked) && PickedInOrder(ranked, i + 1, picked + [ranked[i]])
  {
  }

  lemma BestFreeGrows(ranked: seq<Candidate>, i: nat, page: seq<Candidate>)
    requires i < |ranked| && BestFree(ranked[..i], page) && PickedInOrder(ranked, i, page)
    requires forall j :: 0 <= j < i ==> Served(page, ranked[j])
    ensures BestFree(ranked[..i + 1], page)
    ensures !ShowsRange(page, ranked[i].range) ==> BestFree(ranked[..i + 1], page + [ranked[i]])
  {
    var longer := page + [ranked[i]];
    assert forall c :: c in ranked[..i + 1] ==> c in ranked[..i] || c == ranked[i];
    forall k, c | 0 <= k < |longer| && c in ranked[..i + 1] && c.range == longer[k].range && Outranks(c, longer[k])
      ensures !ShowsRange(page, ranked[i].range) ==> TakesOccurrence(longer[..k], c.occurrence)
    {
      assert longer[..k] == page[..k];
      assert k == |page| ==> page[..k] == page && longer[k] == ranked[i];
    }
  }

  ghost predicate PickedBefore(picked: seq<Candidate>, c: Candidate) {
    forall k :: 0 <= k < |picked| ==> !Outranks(c, picked[k])
  }

  lemma RestRanksAfter(ranked: seq<Candidate>, i: nat, page: seq<Candidate>)
    requires i <= |ranked| && BestFree(ranked[..i], page) && PickedInOrder(ranked, i, page)
    ensures BestFree(ranked, page)
    ensures forall c :: c in ranked ==> c in ranked[..i] || PickedBefore(page, c)
  {
    assert ranked == ranked[..i] + ranked[i..];
    forall c | c in ranked && c !in ranked[..i]
      ensures PickedBefore(page, c)
    {
      var j :| 0 <= j < |ranked| && ranked[j] == c;
    }
  }

  lemma KeepsServed(page: seq<Candidate>, ranked: seq<Candidate>, i: nat)
    requires i < |ranked| && forall j :: 0 <= j < i ==> Served(page, ranked[j])
    ensures forall j :: 0 <= j <= i ==> Served(page + [ranked[i]], ranked[j])
  {
    var longer := page + [ranked[i]];
    assert longer[|page|] == ranked[i];
    forall j | 0 <= j < i
      ensures Served(longer, ranked[j])
    {
      LongerStillTakes(page, longer, ranked[j].occurrence, ranked[j].range);
    }
  }

  lemma FreshStaysApart(page: seq<Candidate>, c: Candidate)
    requires OnePerOccurrence(page) && !TakesOccurrence(page, c.occurrence)
    ensures OnePerOccurrence(page + [c])
    ensures OnePerRange(page) && !ShowsRange(page, c.range) ==> OnePerRange(page + [c])
  {
    assert forall k :: 0 <= k < |page| ==> page[k].occurrence != c.occurrence;
  }

  /** The first pass: the best candidate of each range whose occurrence is free. */
  method BestOfEachRange(ranked: seq<Candidate>, limit: nat)
    returns (page: seq<Candidate>, occurrences: set<int>, ranges: set<int>)
    requires Sorted(RanksBefore, ranked)
    ensures |page| <= limit && OnePerOccurrence(page) && OnePerRange(page) && Seen(page, occurrences, ranges)
    ensures forall k :: 0 <= k < |page| ==> page[k] in ranked
    ensures BestFree(ranked, page) && Sorted(RanksBefore, page)
    ensures forall c :: c in ranked ==> Served(page, c) || (|page| == limit && PickedBefore(page, c))
  {
    page, occurrences, ranges := [], {}, {};
    for i := 0 to |ranked|
      invariant |page| <= limit && OnePerOccurrence(page) && OnePerRange(page) && Seen(page, occurrences, ranges)
      invariant forall k :: 0 <= k < |page| ==> page[k] in ranked
      invariant forall j :: 0 <= j < i ==> Served(page, ranked[j])
      invariant BestFree(ranked[..i], page) && PickedInOrder(ranked, i, page)
    {
      if |page| >= limit {
        RestRanksAfter(ranked, i, page);
        return;
      }
      BestFreeGrows(ranked, i, page);
      PicksStayInOrder(ranked, i, page);
      if ranked[i].range !in ranges && ranked[i].occurrence !in occurrences {
        KeepsServed(page, ranked, i);
        SeenGrows(page, occurrences, ranges, ranked[i]);
        FreshStaysApart(page, ranked[i]);
        occurrences, ranges := occurrences + {ranked[i].occurrence}, ranges + {ranked[i].range};
        page := page + [ranked[i]];
      }
    }
    assert ranked[..|ranked|] == ranked;
  }

  /** Each later entry is the best candidate of its occurrence. */
  ghost predicate BestOfOccurrence(ranked: seq<Candidate>, page: seq<Candidate>, firsts: nat) {
    forall k, c :: firsts <= k < |page| && c in ranked && c.occurrence == page[k].occurrence ==>
      !Outranks(c, page[k])
  }

  lemma BestOfOccurrenceGrows(ranked: seq<Candidate>, i: nat, page: seq<Candidate>, firsts: nat)
    requires i < |ranked| && firsts <= |page| && BestOfOccurrence(ranked[..i], page, firsts)
    requires PickedInOrder(ranked, i, page[firsts..])
    requires forall j :: 0 <= j < i ==> TakesOccurrence(page, ranked[j].occurrence)
    ensures BestOfOccurrence(ranked[..i + 1], page, firsts)
    ensures !TakesOccurrence(page, ranked[i].occurrence) ==>
              BestOfOccurrence(ranked[..i + 1], page + [ranked[i]], firsts)
  {
    assert forall k :: firsts <= k < |page| ==> page[firsts..][k - firsts] == page[k];
    assert forall c :: c in ranked[..i + 1] ==> c in ranked[..i] || c == ranked[i];
  }

  lemma LaterRanksAfter(ranked: seq<Candidate>, i: nat, page: seq<Candidate>, firsts: nat)
    requires i <= |ranked| && firsts <= |page| && BestOfOccurrence(ranked[..i], page, firsts)
    requires PickedInOrder(ranked, i, page[firsts..])
    ensures BestOfOccurrence(ranked, page, firsts)
    ensures forall c :: c in ranked ==> c in ranked[..i] || PickedBefore(page[firsts..], c)
  {
    assert forall k :: firsts <= k < |page| ==> page[firsts..][k - firsts] == page[k];
    forall c | c in ranked && c !in ranked[..i]
      ensures PickedBefore(page[firsts..], c)
    {
      var j :| 0 <= j < |ranked| && ranked[j] == c;
    }
  }

  lemma KeepsTaken(page: seq<Candidate>, ranked: seq<Candidate>, i: nat)
    requires i < |ranked| && forall j :: 0 <= j < i ==> TakesOccurrence(page, ranked[j].occurrence)
    ensures forall j :: 0 <= j <= i ==> TakesOccurrence(page + [ranked[i]], ranked[j].occurrence)
  {
    var longer := page + [ranked[i]];
    assert longer[|page|] == ranked[i];
    forall j | 0 <= j < i
      ensures TakesOccurrence(longer, ranked[j].occurrence)
    {
      LongerStillTakes(page, longer, ranked[j].occurrence, ranked[j].range);
    }
  }

  /** The second pass: the remaining slots by score. */
  method FillByScore(ranked: seq<Candidate>, limit: nat, firsts: seq<Candidate>, taken: set<int>, shown: set<int>)
    returns (page: seq<Candidate>)
    requires |firsts| <= limit && OnePerOccurrence(firsts) && Seen(firsts, taken, shown)
    requires Sorted(RanksBefore, ranked) && forall k :: 0 <= k < |firsts| ==> firsts[k] in ranked
    ensures firsts <= page && |page| <= limit && OnePerOccurrence(page)
    ensures forall k :: 0 <= k < |page| ==> page[k] in ranked
    ensures BestOfOccurrence(ranked, page, |firsts|) && Sorted(RanksBefore, page[|firsts|..])
    ensures forall c :: c in ranked ==>
              TakesOccurrence(page, c.occurrence) || (|page| == limit && PickedBefore(page[|firsts|..], c))
  {
    page := firsts;
    var occurrences, ranges := taken, shown;
    for i := 0 to |ranked|
      invariant firsts <= page && |page| <= limit && OnePerOccurrence(page) && Seen(page, occurrences, ranges)
      invariant forall k :: 0 <= k < |page| ==> page[k] in ranked
      invariant forall j :: 0 <= j < i ==> TakesOccurrence(page, ranked[j].occurrence)
      invariant BestOfOccurrence(ranked[..i], page, |firsts|) && PickedInOrder(ranked, i, page[|firsts|..])
    {
      if |page| >= limit {
        LaterRanksAfter(ranked, i, page, |firsts|);
        return;
      }
      BestOfOccurrenceGrows(ranked, i, page, |firsts|);
      PicksStayInOrder(ranked, i, page[|firsts|..]);
      if ranked[i].occurrence !in occurrences {
        KeepsTaken(page, ranked, i);
        SeenGrows(page, occurrences, ranges, ranked[i]);
        FreshStaysApart(page, ranked[i]);
        occurrences, ranges := occurrences + {ranked[i].occurrence}, ranges + {ranked[i].range};
        assert (page + [ranked[i]])[|firsts|..] == page[|firsts|..] + [ranked[i]];
        page := page + [ranked[i]];
      }
    }
    assert ranked[..|ranked|] == ranked;
  }

  lemma RanksOrder()
    ensures TotalPreorder(RanksBefore)
  {
  }

  /** The whole page from the scored candidates: its first entries show one
      range each, its other entries fill it by score. */
  method SuggestionPage(scored: seq<Candidate>, limit: nat) returns (page: seq<Candidate>, firsts: nat)
    // The limit holds, no occurrence appears twice, and a page with room left
    // has every candidate's occurrence.
    ensures |page| <= limit && OnePerOccurrence(page) && forall k :: 0 <= k < |page| ==> page[k] in scored
    ensures |page| < limit ==> forall c :: c in scored ==> TakesOccurrence(page, c.occurrence)
    // A first entry is the best of its range whose occurrence was still free.
    ensures firsts <= |page| && OnePerRange(page[..firsts]) && Sorted(RanksBefore, page[..firsts])
    ensures BestFree(scored, page[..firsts])
    // A range is missing only from a full page, or when other ranges have taken
    // every occurrence it could show.
    ensures forall c :: c in scored && !ShowsRange(page, c.range) ==>
              firsts == limit || TakesOccurrence(page[..firsts], c.occurrence)
    // The first entries that fill a page rank before the ranges they left out.
    ensures forall c :: c in scored ==>
              Served(page[..firsts], c) || (firsts == limit && PickedBefore(page[..firsts], c))
    // A later entry is the best of its occurrence and ranks before whatever is
    // left out.
    ensures BestOfOccurrence(scored, page, firsts) && Sorted(RanksBefore, page[firsts..])
    ensures forall c :: c in scored && !TakesOccurrence(page, c.occurrence) ==> PickedBefore(page[firsts..], c)
  {
    var ranked := SortBy(RanksBefore, scored);
    RanksOrder();
    SortSorted(RanksBefore, scored);
    SortMembers(RanksBefore, scored);
    var best, taken, shown := BestOfEachRange(ranked, limit);
    page := FillByScore(ranked, limit, best, taken, shown);
    firsts := |best|;
    assert page[..firsts] == best;
    forall c | c in scored && !ShowsRange(page, c.range)
      ensures firsts == limit || TakesOccurrence(page[..firsts], c.occurrence)
    {
      LongerStillTakes(page[..firsts], page, c.occurrence, c.range);
    }
  }
}
