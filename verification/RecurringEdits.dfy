/** The operations that edit a series' terms, and what each does to the amount
    and account in force on every day. */
module RecurringEdits {
  import opened Options
  import opened Ordering
  import opened RecurringTerms

  // ----- single edits of the table

  // The same terms cover the day in both tables.
  lemma SameForce(terms: Terms, after: Terms, d: int)
    requires Apart(terms) && Apart(after)
    requires forall i :: i in terms && Covers(terms[i], d) ==>
               i in after && Covers(after[i], d) && ValueOf(after[i]) == ValueOf(terms[i])
    requires forall i :: i in after && Covers(after[i], d) ==> i in terms && Covers(terms[i], d)
    ensures InForce(after, d) == InForce(terms, d)
  {
    if i :| i in terms && Covers(terms[i], d) {
      InForceIs(terms, i, d);
      InForceIs(after, i, d);
    }
  }

  /** A range sharing no day with the others changes just its own days. */
  lemma AddTerm(terms: Terms, id: TermId, t: Term)
    requires id !in terms && NonEmpty(t) && Apart(terms) && (forall i :: i in terms ==> NonEmpty(terms[i]))
    requires forall i :: i in terms ==> !Overlapping(terms[i], t)
    ensures WellFormed(terms[id := t])
    ensures forall d :: InForce(terms[id := t], d) == if Covers(t, d) then Some(ValueOf(t)) else InForce(terms, d)
  {
    var after := terms[id := t];
    assert id in after;
    forall i, j | i in after && j in after && i != j
      ensures !Overlapping(after[i], after[j])
    {
    }
    forall d
      ensures InForce(after, d) == if Covers(t, d) then Some(ValueOf(t)) else InForce(terms, d)
    {
      if Covers(t, d) {
        InForceIs(after, id, d);
      } else {
        SameForce(terms, after, d);
      }
    }
  }

  lemma RemoveTerm(terms: Terms, id: TermId)
    requires WellFormed(terms) && id in terms
    ensures Apart(terms - {id}) && forall i :: i in terms - {id} ==> NonEmpty((terms - {id})[i])
    ensures forall d :: InForce(terms - {id}, d) == if Covers(terms[id], d) then None else InForce(terms, d)
  {
    var after := terms - {id};
    forall d
      ensures InForce(after, d) == if Covers(terms[id], d) then None else InForce(terms, d)
    {
      if Covers(terms[id], d) {
        forall i | i in after
          ensures !Covers(after[i], d)
        {
          assert !Overlapping(terms[i], terms[id]);
        }
      } else {
        SameForce(terms, after, d);
      }
    }
  }

  /** What is in force once term `id` has become `t`. */
  ghost function AfterMove(terms: Terms, id: TermId, t: Term, d: int): Option<Value>
    requires id in terms
  {
    if Covers(t, d) then Some(ValueOf(t)) else if Covers(terms[id], d) then None else InForce(terms, d)
  }

  /** Closing a term early, or changing its amount and account in place. */
  lemma ShrinkTerm(terms: Terms, id: TermId, t: Term)
    requires WellFormed(terms) && id in terms && NonEmpty(t)
    requires forall d :: Covers(t, d) ==> Covers(terms[id], d)
    ensures WellFormed(terms[id := t])
    ensures forall d :: InForce(terms[id := t], d) ==
              if Covers(t, d) then Some(ValueOf(t)) else if Covers(terms[id], d) then None else InForce(terms, d)
  {
    RemoveTerm(terms, id);
    var rest := terms - {id};
    forall i | i in rest
      ensures !Overlapping(rest[i], t)
    {
      OverlappingShareADay(terms[i], t);
      OverlappingShareADay(terms[i], terms[id]);
    }
    AddTerm(rest, id, t);
    assert rest[id := t] == terms[id := t];
  }

  // ----- an amount or account change from a day on

  /** The days a change effective from `eff` reaches: the term starting there, or
      everything from `eff` to the next start. */
  ghost predicate Reaches(terms: Terms, eff: int, d: int) {
    if exists i :: i in terms && terms[i].start == eff
        then exists i :: i in terms && terms[i].start == eff && Covers(terms[i], d)
    else eff <= d && forall i :: i in terms && terms[i].start > eff ==> d < terms[i].start
  }

  /** A request's tri-state end: left alone, cleared, or set. */
  datatype EndEdit = KeepEnd | OpenEnd | EndAt(day: int)

  predicate PairwiseApart(ranges: seq<Term>) {
    forall i, j :: 0 <= i < j < |ranges| ==> !Overlapping(ranges[i], ranges[j])
  }

  predicate EarlierStart(a: Term, b: Term) {
    a.start <= b.start
  }

  // For non-empty ranges the order they are listed in does not matter.
  lemma ApartInAnyOrder(a: seq<Term>, b: seq<Term>)
    requires multiset(a) == multiset(b) && PairwiseApart(a) && forall t :: t in a ==> NonEmpty(t)
    ensures PairwiseApart(b)
  {
    forall i, j | 0 <= i < j < |a|
      ensures a[i] != a[j]
    {
      assert a[i] in a;
    }
    DistinctCount(a);
    DistinctCount(b);
    forall i, j | 0 <= i < j < |b|
      ensures !Overlapping(b[i], b[j])
    {
      assert b[i] in multiset(b) && b[j] in multiset(b);
      assert b[i] in a && b[j] in a;
    }
  }

  method AnyOverlap(ranges: seq<Term>) returns (clash: bool)
    ensures clash <==> !PairwiseApart(ranges)
  {
    clash := false;
    for i := 0 to |ranges|
      invariant forall k, j :: 0 <= k < i && k < j < |ranges| ==> !Overlapping(ranges[k], ranges[j])
    {
      for j := i + 1 to |ranges|
        invariant forall k :: i < k < j ==> !Overlapping(ranges[i], ranges[k])
      {
        if Overlapping(ranges[i], ranges[j]) {
          return true;
        }
      }
    }
  }

  /** Validates a supplied list and puts it in order; gaps are allowed. */
  method ParseRanges(ranges: seq<Term>) returns (r: Result<seq<Term>>)
    ensures r.Ok?
       <==> ranges != [] && (forall t :: t in ranges ==> t.amount > 0 && NonEmpty(t)) && PairwiseApart(ranges)
    ensures r.Ok? ==> multiset(r.value) == multiset(ranges) && Sorted(EarlierStart, r.value)
    ensures r == Err(NoRange) <==> ranges == []
    ensures r == Err(Overlap) ==> !PairwiseApart(ranges)
    ensures r == Err(BadAmount) ==> exists k :: 0 <= k < |ranges| && ranges[k].amount <= 0 && forall j :: 0 <= j < k ==>
              NonEmpty(ranges[j])
    ensures r == Err(BadEnd) ==> exists k :: 0 <= k < |ranges| && !NonEmpty(ranges[k]) && forall j :: 0 <= j <= k ==>
              ranges[j].amount > 0
  {
    if |ranges| == 0 {
      return Err(NoRange);
    }
    for i := 0 to |ranges|
      invariant forall k :: 0 <= k < i ==> ranges[k].amount > 0 && NonEmpty(ranges[k])
    {
      assert ranges[i] in ranges;
      if ranges[i].amount <= 0 {
        return Err(BadAmount);
      }
      if ranges[i].end.Some? && ranges[i].end.value <= ranges[i].start {
        return Err(BadEnd);
      }
    }
    var out := SortBy(EarlierStart, ranges);
    SortMultiset(EarlierStart, ranges);
    SortSorted(EarlierStart, ranges);
    var clash := AnyOverlap(out);
    if clash {
      if PairwiseApart(ranges) {
        ApartInAnyOrder(ranges, out);
      }
      return Err(Overlap);
    }
    SortMembers(EarlierStart, ranges);
    ApartInAnyOrder(out, ranges);
    r := Ok(out);
  }

  /** The table holding exactly a list of ranges, numbered from `next`. */
  function Numbered(ranges: seq<Term>, next: TermId): Terms {
    if ranges == [] then map[]
    else var n := |ranges| - 1; Numbered(ranges[..n], next)[next + n := ranges[n]]
  }

  lemma {:induction false} NumberedRows(ranges: seq<Term>, next: TermId)
    ensures forall i :: i in Numbered(ranges, next) <==> next <= i < next + |ranges|
    ensures forall i :: i in Numbered(ranges, next) ==> Numbered(ranges, next)[i] == ranges[i - next]
  {
    if ranges != [] {
      NumberedRows(ranges[..|ranges| - 1], next);
    }
  }

  lemma SameMembers(a: seq<Term>, b: seq<Term>)
    requires multiset(a) == multiset(b)
    ensures forall t :: t in a <==> t in b
  {
    forall t
      ensures t in a <==> t in b
    {
      assert t in a <==> t in multiset(a);
      assert t in b <==> t in multiset(b);
    }
  }

  lemma NumberedIsWellFormed(ranges: seq<Term>, next: TermId)
    requires ranges != [] && PairwiseApart(ranges) && forall t :: t in ranges ==> NonEmpty(t)
    ensures WellFormed(Numbered(ranges, next))
    ensures forall k, d :: 0 <= k < |ranges| && Covers(ranges[k], d) ==>
              InForce(Numbered(ranges, next), d) == Some(ValueOf(ranges[k]))
  {
    var terms := Numbered(ranges, next);
    NumberedRows(ranges, next);
    assert next in terms;
    forall i, j | i in terms && j in terms && i != j
      ensures !Overlapping(terms[i], terms[j])
    {
      if i < j {
        assert !Overlapping(ranges[i - next], ranges[j - next]);
      } else {
        assert !Overlapping(ranges[j - next], ranges[i - next]);
      }
    }
    forall k, d | 0 <= k < |ranges| && Covers(ranges[k], d)
      ensures InForce(terms, d) == Some(ValueOf(ranges[k]))
    {
      InForceIs(terms, next + k, d);
    }
  }

  lemma NumberedForce(sorted: seq<Term>, ranges: seq<Term>, next: TermId)
    requires ranges != [] && PairwiseApart(ranges) && multiset(sorted) == multiset(ranges)
               && forall t :: t in ranges ==> NonEmpty(t)
    ensures WellFormed(Numbered(sorted, next))
    ensures forall d :: InForce(Numbered(sorted, next), d).Some? <==> exists t :: t in ranges && Covers(t, d)
    ensures forall t, d :: t in ranges && Covers(t, d) ==> InForce(Numbered(sorted, next), d) == Some(ValueOf(t))
  {
    SameMembers(sorted, ranges);
    assert ranges[0] in sorted;
    ApartInAnyOrder(ranges, sorted);
    NumberedIsWellFormed(sorted, next);
    forall t, d | t in ranges && Covers(t, d)
      ensures InForce(Numbered(sorted, next), d) == Some(ValueOf(t))
    {
      var k :| 0 <= k < |sorted| && sorted[k] == t;
    }
    NumberedRows(sorted, next);
    forall d | InForce(Numbered(sorted, next), d).Some?
      ensures exists t :: t in ranges && Covers(t, d)
    {
      var i :| i in Numbered(sorted, next) && Covers(Numbered(sorted, next)[i], d);
      assert sorted[i - next] in ranges;
    }
  }

  function Merged(t: Term, start: Option<int>, end: EndEdit, amount: Option<int>, account: Option<AccountId>): Term {
    Term(if start.Some? then start.value else t.start,
         match end case KeepEnd => t.end case OpenEnd => None case EndAt(day) => Some(day),
         if amount.Some? then amount.value else t.amount,
         if account.Some? then account.value else t.account)
  }

  lemma LoadedOverlap(terms: Terms, loaded: seq<Row>, t: Term, excluded: Option<TermId>)
    requires WellFormed(terms) && Loaded(terms, loaded)
    ensures (exists r :: r in loaded && Some(r.id) != excluded && Overlapping(r.term, t))
        <==> (exists i :: i in terms && Some(i) != excluded && Overlapping(terms[i], t))
    ensures NonEmpty(t) ==> forall i :: i in terms ==>
              (Overlapping(terms[i], t) <==> exists d :: Covers(terms[i], d) && Covers(t, d))
  {
    if i :| i in terms && Some(i) != excluded && Overlapping(terms[i], t) {
      assert Row(i, terms[i]) in loaded;
    }
    forall i | i in terms && NonEmpty(t)
      ensures Overlapping(terms[i], t) <==> exists d :: Covers(terms[i], d) && Covers(t, d)
    {
      OverlappingShareADay(terms[i], t);
    }
  }

  lemma MoveTerm(terms: Terms, id: TermId, t: Term)
    requires WellFormed(terms) && id in terms && NonEmpty(t)
    requires forall i :: i in terms && i != id ==> !Overlapping(terms[i], t)
    ensures WellFormed(terms[id := t])
    ensures forall d :: InForce(terms[id := t], d) == AfterMove(terms, id, t, d)
  {
    RemoveTerm(terms, id);
    AddTerm(terms - {id}, id, t);
    assert (terms - {id})[id := t] == terms[id := t];
  }

  /** The term covering `eff` and the first to start after it. */
  ghost predicate Around(terms: Terms, eff: int, covering: Option<Row>, after: Option<Row>) {
    && (covering.Some? ==>
         covering.value.id in terms && terms[covering.value.id] == covering.value.term
             && Covers(covering.value.term, eff))
    && (covering == None ==> forall i :: i in terms ==> !Covers(terms[i], eff))
    && (after.Some? ==>
         after.value.id in terms && terms[after.value.id] == after.value.term && after.value.term.start > eff
                        && forall i :: i in terms && terms[i].start > eff ==> after.value.term.start <= terms[i].start)
    && (after == None ==> forall i :: i in terms ==> terms[i].start <= eff)
  }

  method FindCovering(terms: Terms, loaded: seq<Row>, eff: int) returns (covering: Option<Row>, after: Option<Row>)
    requires WellFormed(terms) && Loaded(terms, loaded)
    ensures Around(terms, eff, covering, after)
  {
    covering, after := None, None;
    var i := 0;
    while i < |loaded|
      invariant 0 <= i <= |loaded| && forall k :: 0 <= k < i ==> loaded[k].term.start <= eff
      invariant covering == None ==> forall k :: 0 <= k < i ==> !Covers(loaded[k].term, eff)
      invariant covering.Some? ==> covering.value in loaded && Covers(covering.value.term, eff)
    {
      if loaded[i].term.start > eff {
        after := Some(loaded[i]);
        break;
      }
      if loaded[i].term.end == None || eff < loaded[i].term.end.value {
        covering := Some(loaded[i]);
      }
      i := i + 1;
    }
    forall j | j in terms
      ensures covering == None ==> !Covers(terms[j], eff)
      ensures after == None ==> terms[j].start <= eff
      ensures after.Some? && terms[j].start > eff ==> after.value.term.start <= terms[j].start
    {
      assert Row(j, terms[j]) in loaded;
      var k :| 0 <= k < |loaded| && loaded[k] == Row(j, terms[j]);
      assert i < k ==> StartsNoLater(loaded[i], loaded[k]);
    }
  }

  lemma InPlaceReaches(terms: Terms, id: TermId, eff: int)
    requires WellFormed(terms) && id in terms && terms[id].start == eff
    ensures forall d :: Reaches(terms, eff, d) <==> Covers(terms[id], d)
  {
    forall i | i in terms && terms[i].start == eff
      ensures i == id
    {
      assert NonEmpty(terms[i]) && NonEmpty(terms[id]);
    }
  }

  lemma SplitReaches(terms: Terms, covering: Option<Row>, after: Option<Row>, eff: int, added: Term)
    requires WellFormed(terms) && Around(terms, eff, covering, after)
    requires !(covering.Some? && covering.value.term.start == eff)
    requires added.start == eff && added.end == if after.Some? then Some(after.value.term.start) else None
    ensures NonEmpty(added) && forall d :: Reaches(terms, eff, d) <==> Covers(added, d)
  {
    forall i | i in terms
      ensures terms[i].start != eff
    {
      assert NonEmpty(terms[i]) && (terms[i].start == eff ==> Covers(terms[i], eff));
      assert covering.Some? && covering.value.id != i ==> !Overlapping(terms[i], terms[covering.value.id]);
    }
  }

  lemma ClosedTable(terms: Terms, id: TermId, eff: int)
    requires WellFormed(terms) && id in terms && Covers(terms[id], eff) && terms[id].start != eff
    ensures WellFormed(terms[id := terms[id].(end := Some(eff))])
    ensures forall d :: InForce(terms[id := terms[id].(end := Some(eff))], d) ==
              if Covers(terms[id], d) && d >= eff then None else InForce(terms, d)
  {
    var t := terms[id].(end := Some(eff));
    ShrinkTerm(terms, id, t);
    forall d | Covers(t, d)
      ensures InForce(terms, d) == Some(ValueOf(t))
    {
      InForceIs(terms, id, d);
    }
  }

  lemma EndsBy(terms: Terms, covering: Option<Row>, i: TermId, eff: int)
    requires WellFormed(terms) && i in terms && terms[i].start <= eff
    requires covering.Some? ==>
               covering.value.id in terms && terms[covering.value.id] == covering.value.term
                   && Covers(covering.value.term, eff) && covering.value.id != i
    requires covering == None ==> !Covers(terms[i], eff)
    ensures terms[i].end.Some? && terms[i].end.value <= eff
  {
    if covering.Some? && Covers(terms[i], eff) {
      assert !Overlapping(terms[i], terms[covering.value.id]);
      OverlappingShareADay(terms[i], terms[covering.value.id]);
    }
  }

  lemma OpenAfterClose(before: Terms, closed: Terms, covering: Option<Row>, after: Option<Row>, eff: int, added: Term,
                       id: TermId)
    requires WellFormed(before) && Around(before, eff, covering, after) && NonEmpty(added)
    requires !(covering.Some? && covering.value.term.start == eff) && id !in before
    requires added.start == eff && added.end == if after.Some? then Some(after.value.term.start) else None
    requires closed == if covering.Some? then before[covering.value.id := covering.value.term.(end := Some(eff))]
               else before
    requires WellFormed(closed)
    requires forall d :: InForce(closed, d) ==
               if covering.Some? && Covers(covering.value.term, d) && d >= eff then None else InForce(before, d)
    ensures WellFormed(closed[id := added])
    ensures forall d :: InForce(closed[id := added], d) ==
              if Covers(added, d) then Some(ValueOf(added)) else InForce(before, d)
  {
    forall i | i in closed
      ensures !Overlapping(closed[i], added)
    {
      if before[i].start <= eff && !(covering.Some? && covering.value.id == i) {
        EndsBy(before, covering, i, eff);
      }
    }
    AddTerm(closed, id, added);
    forall d | covering.Some? && Covers(covering.value.term, d) && d >= eff
      ensures Covers(added, d)
    {
      if after.Some? {
        assert !Overlapping(before[covering.value.id], before[after.value.id]);
      }
    }
  }

  class TermTable {
    var rows: Terms
    var next: TermId
    var owned: set<AccountId>

    ghost predicate Valid()
      reads this
    {
      WellFormed(rows) && forall i :: i in rows ==> i < next
    }

    /** INSERT ... WHERE the account is the user's own */
    method Insert(t: Term) returns (done: bool)
      modifies this`rows, this`next
      ensures done <==> t.account in owned
      ensures done ==> next == old(next) + 1 && rows == old(rows)[old(next) := t]
      ensures !done ==> rows == old(rows) && next == old(next)
    {
      done := t.account in owned;
      if done {
        rows, next := rows[next := t], next + 1;
      }
    }

    /** Does the range share a day with a term other than `excluded`? */
    method OverlapsAny(loaded: seq<Row>, range: Term, excluded: Option<TermId>) returns (overlaps: bool)
      ensures overlaps <==> exists r :: r in loaded && Some(r.id) != excluded && Overlapping(r.term, range)
    {
      overlaps := false;
      for i := 0 to |loaded|
        invariant forall k :: 0 <= k < i && Some(loaded[k].id) != excluded ==> !Overlapping(loaded[k].term, range)
      {
        if Some(loaded[i].id) == excluded {
          continue;
        }
        if loaded[i].term.end.Some? && loaded[i].term.end.value <= range.start {
          continue;
        }
        if range.end.Some? && loaded[i].term.start >= range.end.value {
          continue;
        }
        assert loaded[i] in loaded;
        return true;
      }
    }

    /** Adds one range; refused when it shares a day with an existing one. */
    method CreateTerm(t: Term) returns (r: Result<TermId>)
      requires Valid()
      modifies this`rows, this`next
      ensures Valid()
      ensures r.Ok?
         <==> t.amount > 0 && NonEmpty(t) && t.account in owned && forall i :: i in old(rows) ==>
             !exists d :: Covers(old(rows)[i], d) && Covers(t, d)
      ensures r.Err? ==> rows == old(rows)
      ensures r.Ok? ==> forall d :: InForce(rows, d) == if Covers(t, d) then Some(ValueOf(t)) else InForce(old(rows), d)
    {
      if t.amount <= 0 {
        return Err(BadAmount);
      }
      if t.end.Some? && t.end.value <= t.start {
        return Err(BadEnd);
      }
      var loaded := LoadTerms(rows);
      var overlaps := OverlapsAny(loaded, t, None);
      LoadedOverlap(rows, loaded, t, None);
      if overlaps {
        return Err(Overlap);
      }
      if t.account in owned {
        AddTerm(rows, next, t);
      }
      var id := next;
      var done := Insert(t);
      r := if done then Ok(id) else Err(AccountNotOwned);
    }

    /** Removes one range; the last one is refused. */
    method DeleteTerm(id: TermId) returns (r: Result<()>)
      requires Valid()
      modifies this`rows
      ensures Valid()
      ensures r.Ok? <==> id in old(rows) && |old(rows)| > 1
      ensures r.Err? ==> rows == old(rows)
      ensures r.Ok? ==> forall d :: InForce(rows, d) == if Covers(old(rows)[id], d) then None else InForce(old(rows), d)
    {
      if id !in rows {
        return Err(NotFound);
      }
      if |rows| == 1 {
        return Err(LastTerm);
      }
      RemoveTerm(rows, id);
      assert |rows - {id}| == |rows| - 1;
      rows := rows - {id};
      r := Ok(());
    }

    /** Edits one range after merging the omitted fields from the stored row. */
    method UpdateTerm(id: TermId, start: Option<int>, end: EndEdit, amount: Option<int>, account: Option<AccountId>)
      returns (r: Result<()>)
      requires Valid()
      modifies this`rows
      ensures Valid()
      ensures r.Err? ==> rows == old(rows)
      ensures r.Ok? ==>
                id in old(rows) && forall d ::
                    InForce(rows, d) == AfterMove(old(rows), id, Merged(old(rows)[id], start, end, amount, account), d)
      ensures id in old(rows) ==> var t := Merged(old(rows)[id], start, end, amount, account);
                (r.Ok? <==> (amount.Some? ==> amount.value > 0) && NonEmpty(t) && t.account in owned
                            && forall i :: i in old(rows) && i != id ==> !Overlapping(old(rows)[i], t))
    {
      if id !in rows {
        return Err(NotFound);
      }
      var t := rows[id];
      if start.Some? {
        t := t.(start := start.value);
      }
      match end {
        case KeepEnd =>
        case OpenEnd => t := t.(end := None);
        case EndAt(day) => t := t.(end := Some(day));
      }
      if amount.Some? {
        if amount.value <= 0 {
          return Err(BadAmount);
        }
        t := t.(amount := amount.value);
      }
      if account.Some? {
        t := t.(account := account.value);
      }
      if t.end.Some? && t.end.value <= t.start {
        return Err(BadEnd);
      }
      var loaded := LoadTerms(rows);
      var overlaps := OverlapsAny(loaded, t, Some(id));
      LoadedOverlap(rows, loaded, t, Some(id));
      if overlaps {
        return Err(Overlap);
      }
      if t.account !in owned {
        return Err(AccountNotOwned);
      }
      MoveTerm(rows, id, t);
      rows := rows[id := t];
      r := Ok(());
    }

    /** Replaces every term by a supplied list, or changes nothing. */
    method ReplaceRanges(ranges: seq<Term>) returns (r: Result<()>)
      requires Valid()
      modifies this`rows, this`next
      ensures Valid()
      ensures r.Err? ==> rows == old(rows)
      ensures r.Ok?
         <==> ranges != [] && PairwiseApart(ranges) && forall t :: t in ranges ==>
             t.amount > 0 && NonEmpty(t) && t.account in owned
      ensures r.Ok? ==> forall d :: InForce(rows, d).Some? <==> exists t :: t in ranges && Covers(t, d)
      ensures r.Ok? ==> forall t, d :: t in ranges && Covers(t, d) ==> InForce(rows, d) == Some(ValueOf(t))
    {
      var parsed := ParseRanges(ranges);
      if parsed.Err? {
        return Err(parsed.error);
      }
      var before, first := rows, next;
      rows := map[];
      SameMembers(parsed.value, ranges);
      for i := 0 to |parsed.value|
        invariant next == first + i && rows == Numbered(parsed.value[..i], first)
        invariant forall k :: 0 <= k < i ==> parsed.value[k].account in owned
      {
        var done := Insert(parsed.value[i]);
        if !done {
          assert parsed.value[i] in parsed.value;
          rows, next := before, first;
          return Err(AccountNotOwned);
        }
        assert parsed.value[..i + 1][..i] == parsed.value[..i];
      }
      assert parsed.value[..|parsed.value|] == parsed.value;
      NumberedForce(parsed.value, ranges, first);
      NumberedRows(parsed.value, first);
      r := Ok(());
    }

    /** Records an amount and account change effective from `eff`: the term
        starting there is changed in place, otherwise the one covering it is
        closed at `eff` and a new one opened up to the next start. A refused
        account rolls the whole edit back. */
    method ApplyChange(eff: int, amount: int, account: AccountId) returns (r: Result<()>)
      requires Valid()
      modifies this`rows, this`next
      ensures Valid()
      ensures r.Ok? <==> account in owned
      ensures r.Err? ==> rows == old(rows)
      ensures r.Ok? ==>
                forall d :: InForce(rows, d) ==
                    if Reaches(old(rows), eff, d) then Some(Value(amount, account)) else InForce(old(rows), d)
    {
      var loaded := LoadTerms(rows);
      var covering, after := FindCovering(rows, loaded, eff);
      if covering.Some? && covering.value.term.start == eff {
        if account !in owned {
          return Err(AccountNotOwned);
        }
        var t := rows[covering.value.id].(amount := amount, account := account);
        ShrinkTerm(rows, covering.value.id, t);
        InPlaceReaches(rows, covering.value.id, eff);
        rows := rows[covering.value.id := t];
        return Ok(());
      }
      var added := Term(eff, if after.Some? then Some(after.value.term.start) else None, amount, account);
      SplitReaches(rows, covering, after, eff, added);
      var before, kept := rows, next;
      if covering.Some? {
        ClosedTable(rows, covering.value.id, eff);
        rows := rows[covering.value.id := covering.value.term.(end := Some(eff))];
      }
      OpenAfterClose(before, rows, covering, after, eff, added, next);
      var done := Insert(added);
      if !done {
        rows, next := before, kept;
        return Err(AccountNotOwned);
      }
      r := Ok(());
    }
  }

  /** Two requests add a range each after both have read the same terms. The
      second insert is refused only when its start is already taken, so the
      terms stay well-formed exactly when that happens or the two ranges share
      no day. */
  lemma RacingCreates(terms: Terms, first: TermId, a: Term, second: TermId, b: Term)
    requires WellFormed(terms) && first !in terms && second !in terms && first != second && NonEmpty(a) && NonEmpty(b)
    requires forall i :: i in terms ==> !Overlapping(terms[i], a) && !Overlapping(terms[i], b)
    ensures var one := terms[first := a];
            WellFormed(if exists i :: i in one && one[i].start == b.start then one else one[second := b])
            == (a.start == b.start || !Overlapping(a, b))
  {
    AddTerm(terms, first, a);
    var one := terms[first := a];
    assert one[first] == a;
    forall i | i in terms
      ensures terms[i].start != b.start
    {
      assert NonEmpty(terms[i]) && !Overlapping(terms[i], b);
    }
    if a.start != b.start {
      if Overlapping(a, b) {
        assert one[second := b][first] == a && one[second := b][second] == b;
      } else {
        AddTerm(one, second, b);
      }
    }
  }
}
