/** The date-ranged amounts and accounts of a recurring series, and the
    operations that edit them. */
module RecurringTerms {
  import opened Options
  import opened Ordering

  type TermId = int
  type AccountId = int

  /** A term covers [start, end); without an end it is open. */
  datatype Term = Term(start: int, end: Option<int>, amount: int, account: AccountId)

  datatype Value = Value(amount: int, account: AccountId)

  datatype Error = NoRange | BadAmount | BadEnd | Overlap | AccountNotOwned | NotFound | LastTerm

  datatype Result<T> = Ok(value: T) | Err(error: Error)

  predicate Covers(t: Term, d: int) {
    t.start <= d && (t.end.Some? ==> d < t.end.value)
  }

  predicate NonEmpty(t: Term) {
    t.end.Some? ==> t.start < t.end.value
  }

  /** The program's test: neither range ends by the other's start. */
  predicate Overlapping(a: Term, b: Term) {
    !(a.end.Some? && a.end.value <= b.start) && !(b.end.Some? && b.end.value <= a.start)
  }

  /** The test means what it should: some day lies in both ranges. */
  lemma OverlappingShareADay(a: Term, b: Term)
    requires NonEmpty(a) && NonEmpty(b)
    ensures Overlapping(a, b) <==> exists d :: Covers(a, d) && Covers(b, d)
  {
    if Overlapping(a, b) {
      var d := if a.start < b.start then b.start else a.start;
      assert Covers(a, d) && Covers(b, d);
    }
  }

  // ----- a series' terms

  type Terms = map<TermId, Term>

  ghost predicate Apart(terms: Terms) {
    forall i, j :: i in terms && j in terms && i != j ==> !Overlapping(terms[i], terms[j])
  }

  /** At least one range, none empty, no two sharing a day. */
  ghost predicate WellFormed(terms: Terms) {
    && terms != map[]
    && (forall i :: i in terms ==> NonEmpty(terms[i]))
    && Apart(terms)
  }

  function ValueOf(t: Term): Value {
    Value(t.amount, t.account)
  }

  /** The amount and account in force on a day, if any. */
  ghost function InForce(terms: Terms, d: int): Option<Value> {
    if i :| i in terms && Covers(terms[i], d) then Some(ValueOf(terms[i])) else None
  }

  lemma InForceIs(terms: Terms, i: TermId, d: int)
    requires Apart(terms) && i in terms && Covers(terms[i], d)
    ensures InForce(terms, d) == Some(ValueOf(terms[i]))
  {
    forall j | j in terms && Covers(terms[j], d)
      ensures j == i
    {
    }
  }

  // ----- loaded terms

  datatype Row = Row(id: TermId, term: Term)

  predicate StartsNoLater(a: Row, b: Row) {
    a.term.start <= b.term.start
  }

  /** The rows of the table, oldest start first. */
  ghost predicate Loaded(terms: Terms, rows: seq<Row>) {
    && Sorted(StartsNoLater, rows) && Distinct(rows)
    && forall r :: r in rows <==> r.id in terms && terms[r.id] == r.term
  }

  method LoadTerms(terms: Terms) returns (rows: seq<Row>)
    ensures Loaded(terms, rows)
  {
    var ids := Listing(terms.Keys);
    var found: seq<Row> := [];
    for i := 0 to |ids|
      invariant |found| == i && forall k :: 0 <= k < i ==> found[k] == Row(ids[k], terms[ids[k]])
    {
      assert ids[i] in ids;
      found := found + [Row(ids[i], terms[ids[i]])];
    }
    rows := SortBy(StartsNoLater, found);
    SortSorted(StartsNoLater, found);
    SortMembers(StartsNoLater, found);
    SortDistinct(StartsNoLater, found);
    forall r
      ensures r in found <==> r.id in terms && terms[r.id] == r.term
    {
      if r.id in terms && terms[r.id] == r.term {
        assert r.id in ids;
        var k :| 0 <= k < |ids| && ids[k] == r.id;
        assert found[k] == r;
      }
    }
  }

  // Of two loaded terms the earlier one ends by the later one's start.
  lemma InOrder(terms: Terms, rows: seq<Row>, i: int, j: int)
    requires WellFormed(terms) && Loaded(terms, rows) && 0 <= i < j < |rows|
    ensures rows[i].term.end.Some? && rows[i].term.end.value <= rows[j].term.start
    ensures rows[i].term.start < rows[j].term.start
  {
    assert rows[i] in rows && rows[j] in rows;
    assert rows[i].id != rows[j].id;
    assert !Overlapping(terms[rows[i].id], terms[rows[j].id]);
    assert NonEmpty(terms[rows[i].id]) && NonEmpty(terms[rows[j].id]);
    assert StartsNoLater(rows[i], rows[j]);
  }

  /** The term whose range holds the day, or None in a gap. */
  method TermContaining(terms: Terms, rows: seq<Row>, d: int) returns (found: Option<Row>)
    requires WellFormed(terms) && Loaded(terms, rows)
    ensures found.Some? ==> found.value in rows && Covers(found.value.term, d)
    ensures InForce(terms, d) == if found.Some? then Some(ValueOf(found.value.term)) else None
  {
    found := None;
    var i := 0;
    while i < |rows|
      invariant 0 <= i <= |rows| && forall k :: 0 <= k < i ==> !Covers(rows[k].term, d)
    {
      if rows[i].term.start > d {
        break;
      }
      if rows[i].term.end == None || d < rows[i].term.end.value {
        assert rows[i] in rows;
        InForceIs(terms, rows[i].id, d);
        return Some(rows[i]);
      }
      i := i + 1;
    }
    forall j | j in terms
      ensures !Covers(terms[j], d)
    {
      assert Row(j, terms[j]) in rows;
      var k :| 0 <= k < |rows| && rows[k] == Row(j, terms[j]);
      assert i < k ==> StartsNoLater(rows[i], rows[k]);
    }
  }

  // ----- which term is current

  /** The latest start on or before the day, else the earliest. */
  ghost predicate Current(rows: seq<Row>, d: int, r: Row) {
    && r in rows
    && (r.term.start <= d ==> forall o :: o in rows && o.term.start <= d ==> o.term.start <= r.term.start)
    && (r.term.start > d ==> forall o :: o in rows ==> o.term.start >= r.term.start)
  }

  lemma CoveringIsCurrent(terms: Terms, rows: seq<Row>, d: int, i: int)
    requires WellFormed(terms) && Loaded(terms, rows) && 0 <= i < |rows| && Covers(rows[i].term, d)
    ensures Current(rows, d, rows[i]) && InForce(terms, d) == Some(ValueOf(rows[i].term))
  {
    assert rows[i] in rows;
    InForceIs(terms, rows[i].id, d);
    forall k | 0 <= k < |rows| && rows[k].term.start <= d
      ensures rows[k].term.start <= rows[i].term.start
    {
      if i < k {
        InOrder(terms, rows, i, k);
      } else if k < i {
        InOrder(terms, rows, k, i);
      }
    }
  }

  lemma StoppedIsCurrent(terms: Terms, rows: seq<Row>, d: int, i: int)
    requires WellFormed(terms) && Loaded(terms, rows) && 0 <= i <= |rows| && rows != []
    requires forall k :: 0 <= k < i ==> !Covers(rows[k].term, d) && rows[k].term.start <= d
    requires i < |rows| ==> rows[i].term.start > d
    ensures Current(rows, d, if i == 0 then rows[0] else rows[i - 1]) && InForce(terms, d) == None
  {
    var r := if i == 0 then rows[0] else rows[i - 1];
    assert r in rows;
    forall k | 0 <= k < |rows|
      ensures !Covers(rows[k].term, d)
      ensures rows[k].term.start <= d ==> rows[k].term.start <= r.term.start
      ensures i == 0 ==> rows[k].term.start >= r.term.start
    {
      assert i < k < |rows| ==> StartsNoLater(rows[i], rows[k]);
      assert k < i - 1 ==> StartsNoLater(rows[k], rows[i - 1]);
      assert 0 < k ==> StartsNoLater(rows[0], rows[k]);
    }
    forall j | j in terms
      ensures !Covers(terms[j], d)
    {
      assert Row(j, terms[j]) in rows;
    }
  }

  /** The display resolver: the covering term, else the latest before, else the first. */
  method TermAt(terms: Terms, rows: seq<Row>, d: int) returns (found: Option<Row>)
    requires (terms == map[] || WellFormed(terms)) && Loaded(terms, rows)
    ensures found.Some? <==> rows != []
    ensures found.Some? ==> Current(rows, d, found.value)
    ensures found.Some? && InForce(terms, d).Some? ==> InForce(terms, d) == Some(ValueOf(found.value.term))
  {
    if |rows| == 0 {
      return None;
    }
    assert rows[0] in rows;
    var latestBefore: Option<Row> := None;
    var i := 0;
    while i < |rows|
      invariant 0 <= i <= |rows| && forall k :: 0 <= k < i ==> !Covers(rows[k].term, d) && rows[k].term.start <= d
      invariant latestBefore == if i == 0 then None else Some(rows[i - 1])
    {
      if rows[i].term.start > d {
        break;
      }
      latestBefore := Some(rows[i]);
      if rows[i].term.end == None || d < rows[i].term.end.value {
        CoveringIsCurrent(terms, rows, d, i);
        return Some(rows[i]);
      }
      i := i + 1;
    }
    found := if latestBefore.Some? then latestBefore else Some(rows[0]);
    StoppedIsCurrent(terms, rows, d, i);
  }

  /** The create path's resolver over the parsed ranges. */
  method PrimaryRange(terms: Terms, rows: seq<Row>, today: int) returns (primary: Row)
    requires WellFormed(terms) && Loaded(terms, rows) && rows != []
    ensures Current(rows, today, primary)
  {
    primary := rows[0];
    var i := 0;
    while i < |rows|
      invariant 0 <= i <= |rows| && forall k :: 0 <= k < i ==>
                  !Covers(rows[k].term, today) && rows[k].term.start <= today
      invariant primary == if i == 0 then rows[0] else rows[i - 1]
    {
      if rows[i].term.start > today {
        break;
      }
      primary := rows[i];
      if rows[i].term.end == None || today < rows[i].term.end.value {
        CoveringIsCurrent(terms, rows, today, i);
        return rows[i];
      }
      i := i + 1;
    }
    StoppedIsCurrent(terms, rows, today, i);
  }

  /** The list query's order: started terms first, the latest of them first, then
      the ones to come, the soonest first. */
  predicate ListsBefore(a: Row, b: Row, today: int) {
    if a.term.start <= today then b.term.start > today || a.term.start >= b.term.start
    else b.term.start > today && a.term.start <= b.term.start
  }

  /** The three resolvers agree: the row heading the list query is the one term
      the other two pick. */
  lemma ResolversAgree(terms: Terms, rows: seq<Row>, today: int, head: Row, picked: Row)
    requires WellFormed(terms) && Loaded(terms, rows)
    requires head in rows && forall r :: r in rows ==> ListsBefore(head, r, today)
    requires Current(rows, today, picked)
    ensures head == picked
  {
    assert ListsBefore(head, picked, today);
    var i :| 0 <= i < |rows| && rows[i] == head;
    var j :| 0 <= j < |rows| && rows[j] == picked;
    if i < j {
      InOrder(terms, rows, i, j);
    } else if j < i {
      InOrder(terms, rows, j, i);
    }
  }

  /** The last loaded term's end is the series' end, as the list query has it:
      open when any term is, else the latest. */
  lemma LastEndIsLatest(terms: Terms, rows: seq<Row>)
    requires WellFormed(terms) && Loaded(terms, rows) && rows != []
    ensures rows[|rows| - 1].term.end == None <==> exists i :: i in terms && terms[i].end == None
    ensures rows[|rows| - 1].term.end.Some? ==> forall i :: i in terms ==>
              terms[i].end.value <= rows[|rows| - 1].term.end.value
    ensures forall i :: i in terms ==> rows[0].term.start <= terms[i].start
  {
    var n := |rows| - 1;
    assert rows[n] in rows;
    forall i | i in terms
      ensures terms[i].end == None ==> rows[n].term.end == None
      ensures rows[n].term.end.Some? ==> terms[i].end.value <= rows[n].term.end.value
      ensures rows[0].term.start <= terms[i].start
    {
      assert Row(i, terms[i]) in rows;
      var k :| 0 <= k < |rows| && rows[k] == Row(i, terms[i]);
      if k < n {
        InOrder(terms, rows, k, n);
        assert NonEmpty(terms[rows[n].id]);
      }
      assert 0 < k ==> StartsNoLater(rows[0], rows[k]);
    }
  }
}
