/** When a recurring series falls due. */
module RecurringSchedule {
  import opened Options
  import opened Calendar

  const MAX_RECURRING_STEPS := 20000

  datatype Frequency = Daily | Weekly | Monthly | Yearly

  /** Days are day numbers; the end is exclusive. */
  datatype Series = Series(start: Date, frequency: Frequency, interval: int, end: Option<int>)

  /** The i-th occurrence, counted from the start and never from the one before. */
  function OccurrenceAt(s: Series, i: int): int {
    var interval := if s.interval < 1 then 1 else s.interval;
    match s.frequency
    case Daily => ToDay(s.start) + i * interval
    case Weekly => ToDay(s.start) + 7 * i * interval
    case Monthly => ToDay(AddMonthsAnchored(s.start, i * interval))
    case Yearly => ToDay(AddMonthsAnchored(s.start, i * interval * 12))
  }

  predicate Within(s: Series, day: int) {
    s.end.Some? ==> day < s.end.value
  }

  // ----- order and drift

  lemma StepsGrow(i: int, j: int, interval: int)
    requires i < j && interval >= 1
    ensures i * interval < j * interval
  {
  }

  /** Occurrences strictly increase. */
  lemma OccurrencesIncrease(s: Series, i: int, j: int)
    requires i < j
    ensures OccurrenceAt(s, i) < OccurrenceAt(s, j)
  {
    var interval := if s.interval < 1 then 1 else s.interval;
    StepsGrow(i, j, interval);
    match s.frequency
    case Daily =>
    case Weekly => assert 7 * i * interval == 7 * (i * interval) && 7 * j * interval == 7 * (j * interval);
    case Monthly => AnchoredIncreasing(s.start, i * interval, j * interval);
    case Yearly => AnchoredIncreasing(s.start, i * interval * 12, j * interval * 12);
  }

  /** A monthly or yearly series keeps its day of month, however many shorter
      months it has passed through: it falls on the anchor's day wherever the
      month has one, and on the month's last day otherwise. */
  lemma NoDayDrift(s: Series, i: int)
    requires s.frequency == Monthly || s.frequency == Yearly
    ensures exists d: Date ::
              OccurrenceAt(s, i) == ToDay(d)
                  && (d.day == s.start.day || (d.day == DaysInMonth(d.month) && d.day < s.start.day))
              && d.month == s.start.month
                   + i * (if s.interval < 1 then 1 else s.interval) * (if s.frequency == Yearly then 12 else 1)
  {
    var interval := if s.interval < 1 then 1 else s.interval;
    var d := AddMonthsAnchored(s.start, i * interval * (if s.frequency == Yearly then 12 else 1));
    assert OccurrenceAt(s, i) == ToDay(d);
  }

  // ----- one occurrence and the next

  /** `date` is in the given month, on the given day or, when the month is
      shorter, on its last day. */
  predicate KeepsDay(date: Date, month: int, day: int) {
    && date.month == month
    && date.day <= day
    && (date.day < day ==> date.day == DaysInMonth(month))
  }

  ghost predicate MonthsApart(months: int, anchor: int, day: int, next: int) {
    exists a: Date, b: Date ::
      && ToDay(a) == day && ToDay(b) == next
      && KeepsDay(a, a.month, anchor) && KeepsDay(b, a.month + months, anchor)
  }

  ghost predicate SoMany(s: Series, interval: int, day: int, next: int) {
    match s.frequency
    case Daily => next - day == interval
    case Weekly => next - day == 7 * interval
    case Monthly => MonthsApart(interval, s.start.day, day, next)
    case Yearly => MonthsApart(12 * interval, s.start.day, day, next)
  }

  /** From `day` to `next` is one interval of the series' frequency: so many days,
      weeks, months or years, where an interval below one counts as one. */
  ghost predicate OneInterval(s: Series, day: int, next: int) {
    exists interval: int ::
      && interval >= 1 && (interval == s.interval || (interval == 1 && s.interval < 1))
      && SoMany(s, interval, day, next)
  }

  lemma AnchoredMonthsApart(start: Date, at: int, months: int)
    ensures MonthsApart(months, start.day, ToDay(AddMonthsAnchored(start, at)),
                        ToDay(AddMonthsAnchored(start, at + months)))
  {
    var a, b := AddMonthsAnchored(start, at), AddMonthsAnchored(start, at + months);
    assert KeepsDay(a, a.month, start.day) && KeepsDay(b, a.month + months, start.day);
  }

  lemma NextStep(i: int, interval: int)
    ensures (i + 1) * interval == i * interval + interval
    ensures 7 * (i + 1) * interval == 7 * i * interval + 7 * interval
    ensures (i + 1) * interval * 12 == i * interval * 12 + 12 * interval
  {
  }

  lemma NextOccurrence(s: Series, i: int, interval: int)
    requires interval == if s.interval < 1 then 1 else s.interval
    ensures SoMany(s, interval, OccurrenceAt(s, i), OccurrenceAt(s, i + 1))
  {
    NextStep(i, interval);
    match s.frequency {
      case Daily =>
      case Weekly =>
      case Monthly => AnchoredMonthsApart(s.start, i * interval, interval);
      case Yearly => AnchoredMonthsApart(s.start, i * interval * 12, 12 * interval);
    }
  }

  /** A series starts on its start date, and each occurrence is one interval after
      the one before. */
  lemma OccurrencesAreIntervals(s: Series, i: int)
    ensures OccurrenceAt(s, 0) == ToDay(s.start)
    ensures OneInterval(s, OccurrenceAt(s, i), OccurrenceAt(s, i + 1))
  {
    NextOccurrence(s, i, if s.interval < 1 then 1 else s.interval);
  }

  // ----- the next occurrences

  predicate Due(s: Series, from: int, i: int) {
    from <= OccurrenceAt(s, i) && Within(s, OccurrenceAt(s, i))
  }

  ghost predicate IsDue(s: Series, from: int, day: int) {
    exists i :: 0 <= i < MAX_RECURRING_STEPS && Due(s, from, i) && day == OccurrenceAt(s, i)
  }

  /** `out` is the first `count` occurrences in [from, end) within the bound. */
  ghost predicate FirstDue(s: Series, from: int, count: int, out: seq<int>) {
    && |out| <= (if count < 0 then 0 else count)
    && (forall k :: 0 <= k < |out| ==> IsDue(s, from, out[k]))
    && (forall j, k :: 0 <= j < k < |out| ==> out[j] < out[k])
    && (forall i :: 0 <= i < MAX_RECURRING_STEPS && Due(s, from, i) ==>
          OccurrenceAt(s, i) in out || (|out| == count && forall k :: 0 <= k < |out| ==> out[k] < OccurrenceAt(s, i))
              || count <= 0)
  }

  /** The listed days stand one interval apart. */
  ghost predicate Spaced(s: Series, out: seq<int>) {
    forall k :: 0 < k < |out| ==> OneInterval(s, out[k - 1], out[k])
  }

  lemma DueIsInside(s: Series, from: int, i: int, j: int, k: int)
    requires i < j < k && Due(s, from, i) && Due(s, from, k)
    ensures Due(s, from, j)
  {
    OccurrencesIncrease(s, i, j);
    OccurrencesIncrease(s, j, k);
  }

  lemma NothingBetween(s: Series, from: int, count: int, out: seq<int>, k: nat, i: int)
    requires FirstDue(s, from, count, out) && 0 < k < |out| && 0 <= i < MAX_RECURRING_STEPS && Due(s, from, i)
    ensures OccurrenceAt(s, i) <= out[k - 1] || out[k] <= OccurrenceAt(s, i)
  {
    if OccurrenceAt(s, i) in out {
      var p :| 0 <= p < |out| && out[p] == OccurrenceAt(s, i);
      assert p < k - 1 ==> out[p] < out[k - 1];
      assert p > k ==> out[k] < out[p];
    }
  }

  lemma NextListed(s: Series, from: int, count: int, out: seq<int>, k: nat, i: int, j: int)
    requires FirstDue(s, from, count, out) && 0 < k < |out|
    requires 0 <= i < MAX_RECURRING_STEPS && Due(s, from, i) && out[k - 1] == OccurrenceAt(s, i)
    requires 0 <= j < MAX_RECURRING_STEPS && Due(s, from, j) && out[k] == OccurrenceAt(s, j)
    ensures j == i + 1
  {
    assert out[k - 1] < out[k];
    if j < i {
      OccurrencesIncrease(s, j, i);
    } else if i + 1 < j {
      DueIsInside(s, from, i, i + 1, j);
      OccurrencesIncrease(s, i, i + 1);
      OccurrencesIncrease(s, i + 1, j);
      NothingBetween(s, from, count, out, k, i + 1);
    }
  }

  lemma IndexOfDue(s: Series, from: int, day: int) returns (i: int)
    requires IsDue(s, from, day)
    ensures 0 <= i < MAX_RECURRING_STEPS && Due(s, from, i) && day == OccurrenceAt(s, i)
  {
    i :| 0 <= i < MAX_RECURRING_STEPS && Due(s, from, i) && day == OccurrenceAt(s, i);
  }

  lemma ListedOneIntervalApart(s: Series, from: int, count: int, out: seq<int>, k: nat)
    requires FirstDue(s, from, count, out) && 0 < k < |out|
    ensures OneInterval(s, out[k - 1], out[k])
  {
    var i := IndexOfDue(s, from, out[k - 1]);
    var j := IndexOfDue(s, from, out[k]);
    NextListed(s, from, count, out, k, i, j);
    OccurrencesAreIntervals(s, i);
  }

  lemma NoneBeforeTheStart(s: Series, from: int, day: int)
    requires IsDue(s, from, day)
    ensures ToDay(s.start) <= day && (s.end.Some? ==> day < s.end.value)
  {
    var i := IndexOfDue(s, from, day);
    OccurrencesAreIntervals(s, 0);
    if 0 < i {
      OccurrencesIncrease(s, 0, i);
    }
  }

  /** The start date is listed first when it is due. */
  lemma FirstIsFirstDue(s: Series, from: int, count: int, out: seq<int>)
    requires FirstDue(s, from, count, out) && count > 0 && from <= ToDay(s.start)
    ensures if s.end.Some? && s.end.value <= ToDay(s.start) then out == []
            else out != [] && out[0] == ToDay(s.start)
  {
    OccurrencesAreIntervals(s, 0);
    assert forall p :: 0 < p < |out| ==> out[0] < out[p];
    if out != [] {
      NoneBeforeTheStart(s, from, out[0]);
    }
    if Due(s, from, 0) {
      var day := OccurrenceAt(s, 0);
      assert day in out || |out| == count;
    }
  }

  /** What is listed lies from `from` up to the end, one interval apart, and begins
      with the start date unless that is past. */
  lemma ListedAreIntervals(s: Series, from: int, count: int, out: seq<int>)
    requires FirstDue(s, from, count, out)
    ensures forall k :: 0 <= k < |out| ==> from <= out[k] && (s.end.Some? ==> out[k] < s.end.value)
    ensures Spaced(s, out)
    ensures count > 0 && from <= ToDay(s.start) ==>
              if s.end.Some? && s.end.value <= ToDay(s.start) then out == []
              else out != [] && out[0] == ToDay(s.start)
  {
    forall k | 0 <= k < |out|
      ensures from <= out[k] && (s.end.Some? ==> out[k] < s.end.value)
    {
      assert IsDue(s, from, out[k]);
    }
    forall k | 0 < k < |out|
      ensures OneInterval(s, out[k - 1], out[k])
    {
      ListedOneIntervalApart(s, from, count, out, k);
    }
    if count > 0 && from <= ToDay(s.start) {
      FirstIsFirstDue(s, from, count, out);
    }
  }

  /** The loop, against the occurrences it is to list. */
  method FirstOccurrences(s: Series, from: int, count: int) returns (out: seq<int>)
    ensures FirstDue(s, from, count, out)
  {
    out := [];
    if count <= 0 {
      return;
    }
    var i := 0;
    while i < MAX_RECURRING_STEPS && |out| < count
      invariant 0 <= i <= MAX_RECURRING_STEPS && |out| <= count
      invariant forall k :: 0 <= k < |out| ==> IsDue(s, from, out[k])
      invariant forall j, k :: 0 <= j < k < |out| ==> out[j] < out[k]
      invariant forall k :: 0 <= k < |out| ==> out[k] < OccurrenceAt(s, i)
      invariant forall j :: 0 <= j < i && Due(s, from, j) ==> OccurrenceAt(s, j) in out
    {
      var occ := OccurrenceAt(s, i);
      OccurrencesIncrease(s, i, i + 1);
      if !Within(s, occ) {
        forall j | i <= j < MAX_RECURRING_STEPS
          ensures !Due(s, from, j)
        {
          if i < j {
            OccurrencesIncrease(s, i, j);
          }
        }
        return;
      }
      if from <= occ {
        assert Due(s, from, i);
        out := out + [occ];
      }
      i := i + 1;
    }
    forall j | i <= j < MAX_RECURRING_STEPS
      ensures OccurrenceAt(s, i) <= OccurrenceAt(s, j)
    {
      if i < j {
        OccurrencesIncrease(s, i, j);
      }
    }
  }

  method Upcoming(s: Series, from: int, count: int) returns (out: seq<int>)
    ensures FirstDue(s, from, count, out)
    ensures forall k :: 0 <= k < |out| ==> from <= out[k] && (s.end.Some? ==> out[k] < s.end.value)
    ensures Spaced(s, out)
    ensures count > 0 && from <= ToDay(s.start) ==>
              if s.end.Some? && s.end.value <= ToDay(s.start) then out == []
              else out != [] && out[0] == ToDay(s.start)
  {
    out := FirstOccurrences(s, from, count);
    ListedAreIntervals(s, from, count, out);
  }

  lemma NoLonger(s: Series, from: int, count: int, a: seq<int>, b: seq<int>)
    requires FirstDue(s, from, count, a) && FirstDue(s, from, count, b) && |a| <= |b| && a == b[..|a|]
    ensures |b| == |a|
  {
    assert |a| < |b| ==> IsDue(s, from, b[|a|]);
    assert forall k :: 0 <= k < |a| ==> a[k] == b[k];
  }

  lemma NotEarlier(s: Series, from: int, count: int, a: seq<int>, b: seq<int>, n: nat)
    requires FirstDue(s, from, count, a) && FirstDue(s, from, count, b) && n < |a| && n < |b| && a[..n] == b[..n]
    ensures b[n] <= a[n]
  {
    assert forall k :: 0 <= k < n ==> a[..n][k] == a[k] && b[..n][k] == b[k];
    assert IsDue(s, from, a[n]);
  }

  lemma {:induction false} AgreeSoFar(s: Series, from: int, count: int, a: seq<int>, b: seq<int>, n: nat)
    requires FirstDue(s, from, count, a) && FirstDue(s, from, count, b)
    requires n <= |a| && n <= |b|
    ensures a[..n] == b[..n]
  {
    if n > 0 {
      AgreeSoFar(s, from, count, a, b, n - 1);
      NotEarlier(s, from, count, a, b, n - 1);
      NotEarlier(s, from, count, b, a, n - 1);
      assert a[..n] == a[..n - 1] + [a[n - 1]] && b[..n] == b[..n - 1] + [b[n - 1]];
    }
  }

  /** There is one such list. */
  lemma FirstDueIsUnique(s: Series, from: int, count: int, a: seq<int>, b: seq<int>)
    requires FirstDue(s, from, count, a) && FirstDue(s, from, count, b)
    ensures a == b
  {
    AgreeSoFar(s, from, count, a, b, if |a| < |b| then |a| else |b|);
    if |a| <= |b| {
      assert a[..|a|] == a;
      NoLonger(s, from, count, a, b);
      assert b[..|b|] == b;
    } else {
      assert b[..|b|] == b;
      NoLonger(s, from, count, b, a);
    }
  }

  // ----- the occurrence nearest a date

  function Apart(a: int, b: int): nat {
    if a < b then b - a else a - b
  }

  predicate Scored(s: Series, i: int) {
    0 <= i < MAX_RECURRING_STEPS && Within(s, OccurrenceAt(s, i))
  }

  /** Occurrence `i` is as near as `j`, and nearer when `j` comes first. */
  predicate NoFarther(s: Series, day: int, i: int, j: int) {
    Apart(OccurrenceAt(s, i), day) <= Apart(OccurrenceAt(s, j), day)
        && (j < i ==> Apart(OccurrenceAt(s, i), day) < Apart(OccurrenceAt(s, j), day))
  }

  /** `i` is the earliest of the occurrences closest to `day`. */
  ghost predicate Nearest(s: Series, day: int, i: int) {
    Scored(s, i) && forall j :: Scored(s, j) ==> NoFarther(s, day, i, j)
  }

  ghost predicate NearestSoFar(s: Series, day: int, i: int, n: int) {
    0 <= i < n && forall j :: 0 <= j < n ==> Scored(s, j) && NoFarther(s, day, i, j)
  }

  lemma OneMoreScored(s: Series, day: int, at: int, i: int, found: bool)
    requires 0 <= i < MAX_RECURRING_STEPS && Within(s, OccurrenceAt(s, i)) && (found <==> i > 0)
    requires found ==> NearestSoFar(s, day, at, i)
    ensures if !found || Apart(OccurrenceAt(s, i), day) < Apart(OccurrenceAt(s, at), day)
            then NearestSoFar(s, day, i, i + 1) else NearestSoFar(s, day, at, i + 1)
  {
    var best := if !found || Apart(OccurrenceAt(s, i), day) < Apart(OccurrenceAt(s, at), day) then i else at;
    forall j | 0 <= j < i + 1
      ensures Scored(s, j) && NoFarther(s, day, best, j)
    {
      if j < i {
        assert Scored(s, j) && NoFarther(s, day, at, j);
      }
    }
  }

  // Past a stop at the end or after the day, nothing is scored or all is farther.
  lemma LaterAreFarther(s: Series, day: int, i: int)
    requires 0 <= i <= MAX_RECURRING_STEPS
    requires i == MAX_RECURRING_STEPS || !Within(s, OccurrenceAt(s, i)) || (i > 0 && OccurrenceAt(s, i - 1) > day)
    ensures forall j :: i <= j && Scored(s, j) ==>
              i > 0 && OccurrenceAt(s, i - 1) > day
                  && Apart(OccurrenceAt(s, i - 1), day) < Apart(OccurrenceAt(s, j), day)
  {
    forall j | i <= j && Scored(s, j)
      ensures i > 0 && OccurrenceAt(s, i - 1) > day
      ensures Apart(OccurrenceAt(s, i - 1), day) < Apart(OccurrenceAt(s, j), day)
    {
      if i < j {
        OccurrencesIncrease(s, i, j);
      }
      OccurrencesIncrease(s, i - 1, j);
    }
  }

  lemma StoppedIsNearest(s: Series, day: int, at: int, i: int)
    requires 0 <= i <= MAX_RECURRING_STEPS && (i > 0 ==> NearestSoFar(s, day, at, i))
    requires i == MAX_RECURRING_STEPS || !Within(s, OccurrenceAt(s, i)) || (i > 0 && OccurrenceAt(s, i - 1) > day)
    ensures i > 0 ==> Nearest(s, day, at)
    ensures i == 0 ==> forall j :: !Scored(s, j)
  {
    LaterAreFarther(s, day, i);
    forall j | Scored(s, j)
      ensures i > 0 && NoFarther(s, day, at, j)
    {
      if i <= j {
        assert NoFarther(s, day, at, i - 1);
      }
    }
  }

  /** The early exit at the first occurrence after `day` loses nothing. */
  method NearestOccurrence(s: Series, day: int) returns (best: int, daysOff: nat, found: bool)
    ensures found <==> Within(s, OccurrenceAt(s, 0))
    ensures found ==> exists i :: Nearest(s, day, i) && best == OccurrenceAt(s, i) && daysOff == Apart(best, day)
    ensures !found ==> forall i :: !Scored(s, i)
    ensures found ==> daysOff == (if best < day then day - best else best - day)
    ensures found ==> forall i :: Scored(s, i) ==>
              day - OccurrenceAt(s, i) >= daysOff || OccurrenceAt(s, i) - day >= daysOff
  {
    best, daysOff, found := 0, 0, false;
    ghost var at := 0;
    var i := 0;
    while i < MAX_RECURRING_STEPS
      invariant 0 <= i <= MAX_RECURRING_STEPS && (found <==> i > 0) && (found ==> Within(s, OccurrenceAt(s, 0)))
      invariant found ==> NearestSoFar(s, day, at, i) && best == OccurrenceAt(s, at) && daysOff == Apart(best, day)
    {
      var occ := OccurrenceAt(s, i);
      if !Within(s, occ) {
        break;
      }
      OneMoreScored(s, day, at, i, found);
      if !found || Apart(occ, day) < daysOff {
        best, daysOff, found, at := occ, Apart(occ, day), true, i;
      }
      i := i + 1;
      if occ > day {
        break;
      }
    }
    StoppedIsNearest(s, day, at, i);
  }

  // ----- occurrences an attached payment covers

  ghost predicate Marks(s: Series, date: int, window: nat, occ: int) {
    exists i :: Nearest(s, date, i) && occ == OccurrenceAt(s, i) && Apart(occ, date) <= window
  }

  lemma OneNearest(s: Series, date: int)
    ensures forall i, j :: Nearest(s, date, i) && Nearest(s, date, j) ==> i == j
  {
  }

  lemma MarksOne(s: Series, date: int, window: nat, occ: int)
    requires exists i :: Nearest(s, date, i) && occ == OccurrenceAt(s, i)
    requires Apart(occ, date) <= window
    ensures forall other :: Marks(s, date, window, other) <==> other == occ
  {
    OneNearest(s, date);
  }

  lemma MarksNone(s: Series, date: int, window: nat, occ: int)
    requires exists i :: Nearest(s, date, i) && occ == OccurrenceAt(s, i)
    requires Apart(occ, date) > window
    ensures forall other :: !Marks(s, date, window, other)
  {
    OneNearest(s, date);
  }

  method Marked(s: Series, date: int, window: nat) returns (marked: set<int>)
    ensures forall occ :: occ in marked <==> Marks(s, date, window, occ)
    ensures |marked| <= 1
  {
    var occ, daysOff, ok := NearestOccurrence(s, date);
    if !ok || daysOff > window {
      if ok {
        MarksNone(s, date, window, occ);
      }
      return {};
    }
    MarksOne(s, date, window, occ);
    marked := {occ};
  }

  /** Each attached payment marks the one occurrence nearest it, if that is
      within the window. */
  method MatchedOccurrences(s: Series, attached: seq<int>, window: nat) returns (matched: set<int>)
    ensures forall occ :: occ in matched <==> exists k :: 0 <= k < |attached| && Marks(s, attached[k], window, occ)
    ensures |matched| <= |attached|
  {
    matched := {};
    for k := 0 to |attached|
      invariant forall occ :: occ in matched <==> exists j :: 0 <= j < k && Marks(s, attached[j], window, occ)
      invariant |matched| <= k
    {
      var marked := Marked(s, attached[k], window);
      matched := matched + marked;
    }
  }
}
