/** Rule predicates: SQL LIKE with an escape character, the filter a rule adds
    to an UPDATE, and the in-memory matcher they must agree with. */
module RuleMatching {
  import opened Options

  // ----- LIKE

  /** SQL `s LIKE p ESCAPE '\'`. */
  predicate Like(s: string, p: string)
    decreases |s| + |p|
  {
    if p == "" then s == ""
    else if p[0] == '%' then Like(s, p[1..]) || (s != "" && Like(s[1..], p))
    else if p[0] == '_' then s != "" && Like(s[1..], p[1..])
    else if p[0] == '\\' then |p| > 1 && s != "" && s[0] == p[1] && Like(s[1..], p[2..])
    else s != "" && s[0] == p[0] && Like(s[1..], p[1..])
  }

  /** An underscore stands for exactly one character. */
  lemma {:induction false} UnderscoresCount(s: string, p: string)
    requires forall i :: 0 <= i < |p| ==> p[i] == '_'
    ensures Like(s, p) <==> |s| == |p|
  {
    if p != "" && s != "" {
      UnderscoresCount(s[1..], p[1..]);
    }
  }

  predicate IsMeta(c: char) { c == '\\' || c == '%' || c == '_' }

  function EscapeLike(p: string): string {
    if p == "" then ""
    else (if IsMeta(p[0]) then ['\\', p[0]] else [p[0]]) + EscapeLike(p[1..])
  }

  /** A case folding that keeps the LIKE characters apart from all others. */
  ghost predicate FoldOk(fold: char -> char) {
    forall c :: (IsMeta(c) ==> fold(c) == c) && (IsMeta(fold(c)) ==> fold(c) == c)
  }

  function Lower(fold: char -> char, s: string): string {
    if s == "" then "" else [fold(s[0])] + Lower(fold, s[1..])
  }

  predicate Contains(s: string, p: string) {
    exists k :: 0 <= k <= |s| && p <= s[k..]
  }

  lemma {:induction false} LowerAppend(fold: char -> char, a: string, b: string)
    ensures Lower(fold, a + b) == Lower(fold, a) + Lower(fold, b)
  {
    if a == "" {
      assert a + b == b;
    } else {
      LowerAppend(fold, a[1..], b);
      assert (a + b)[0] == a[0] && (a + b)[1..] == a[1..] + b;
      assert Lower(fold, a + b) == [fold(a[0])] + Lower(fold, a[1..] + b);
    }
  }

  /** Folding and escaping commute, so folding the bound argument in SQL folds
      the user's pattern. */
  lemma {:induction false} LowerEscape(fold: char -> char, p: string)
    requires FoldOk(fold)
    ensures Lower(fold, EscapeLike(p)) == EscapeLike(Lower(fold, p))
  {
    if p != "" {
      LowerEscape(fold, p[1..]);
      var head := if IsMeta(p[0]) then ['\\', p[0]] else [p[0]];
      LowerAppend(fold, head, EscapeLike(p[1..]));
      assert fold('\\') == '\\';
      if IsMeta(p[0]) {
        assert head[1..] == [p[0]] && [p[0]][1..] == "";
        assert Lower(fold, head) == ['\\'] + ([fold(p[0])] + "");
      } else {
        assert head[1..] == "";
      }
    }
  }

  lemma QuotedHead(s: string, c: char, tail: string)
    ensures Like(s, ['\\', c] + tail) <==> s != "" && s[0] == c && Like(s[1..], tail)
  {
    var pat := ['\\', c] + tail;
    assert pat[0] == '\\' && pat[1] == c && pat[2..] == tail;
  }

  lemma PlainHead(s: string, c: char, tail: string)
    requires !IsMeta(c)
    ensures Like(s, [c] + tail) <==> s != "" && s[0] == c && Like(s[1..], tail)
  {
    var pat := [c] + tail;
    assert pat[0] == c && pat[1..] == tail;
  }

  // The escaped first character matches just that character.
  lemma EscapedHead(s: string, p: string, rest: string)
    requires p != ""
    ensures Like(s, EscapeLike(p) + rest) <==> s != "" && s[0] == p[0] && Like(s[1..], EscapeLike(p[1..]) + rest)
  {
    var tail := EscapeLike(p[1..]) + rest;
    if IsMeta(p[0]) {
      assert EscapeLike(p) + rest == ['\\', p[0]] + tail;
      QuotedHead(s, p[0], tail);
    } else {
      assert EscapeLike(p) + rest == [p[0]] + tail;
      PlainHead(s, p[0], tail);
    }
  }

  lemma HeadPrefix(s: string, p: string)
    requires s != "" && p != "" && s[0] == p[0]
    ensures p <= s <==> p[1..] <= s[1..]
  {
    assert p == [p[0]] + p[1..] && s == [s[0]] + s[1..];
  }

  /** An escaped pattern matches exactly itself, whatever follows it. */
  lemma {:induction false} EscapedIsLiteral(s: string, p: string, rest: string)
    ensures Like(s, EscapeLike(p) + rest) <==> p <= s && Like(s[|p|..], rest)
    decreases |p|
  {
    if p == "" {
      assert EscapeLike(p) + rest == rest && s[0..] == s;
    } else {
      EscapedHead(s, p, rest);
      if s != "" && s[0] == p[0] {
        EscapedIsLiteral(s[1..], p[1..], rest);
        assert |p| <= |s| ==> s[1..][|p| - 1..] == s[|p|..];
        HeadPrefix(s, p);
      }
    }
  }

  lemma {:induction false} AnythingMatches(s: string)
    ensures Like(s, "%")
  {
    if s != "" { AnythingMatches(s[1..]); }
  }

  /** A leading wildcard tries the rest of the pattern from every position. */
  lemma {:induction false} WildcardSplits(s: string, p: string)
    ensures Like(s, "%" + p) <==> exists k :: 0 <= k <= |s| && Like(s[k..], p)
  {
    assert ("%" + p)[1..] == p;
    assert s[0..] == s;
    if s != "" {
      WildcardSplits(s[1..], p);
      assert forall k :: 0 <= k < |s| ==> s[1..][k..] == s[k + 1..];
      if k :| 0 <= k <= |s| && Like(s[k..], p) {
        if k > 0 {
          assert s[1..][k - 1..] == s[k..];
        }
      }
      if k :| 0 <= k <= |s[1..]| && Like(s[1..][k..], p) {
        assert s[k + 1..] == s[1..][k..];
      }
    }
  }

  // ----- the description match

  /** The in-memory match; an unknown match type never fires. */
  predicate MatchRule(fold: char -> char, desc: string, pattern: string, matchType: string) {
    var d, p := Lower(fold, desc), Lower(fold, pattern);
    if matchType == "contains" then Contains(d, p)
    else if matchType == "starts_with" then p <= d
    else if matchType == "exact" then d == p
    else false
  }

  datatype Clause =
    | CategoryNull | AccountOpen
    | DescLike(arg: string) | DescEquals(arg: string)
    | AccountIs(id: int) | CategoryIs(id: int) | PayeeIs(id: int)
    | AmountAtLeast(amount: int) | AmountAtMost(amount: int)
    | TypeIs(kind: string) | DateFrom(day: int) | DateTo(day: int)
    | Linked(wanted: bool) | Recurring(wanted: bool)

  function RuleMatchSQL(matchType: string, pattern: string): (c: Option<Clause>)
    ensures c.Some? ==> c.value.DescLike? || c.value.DescEquals?
  {
    if matchType == "contains" then Some(DescLike("%" + EscapeLike(pattern) + "%"))
    else if matchType == "starts_with" then Some(DescLike(EscapeLike(pattern) + "%"))
    else if matchType == "exact" then Some(DescEquals(pattern))
    else None
  }

  predicate DescHolds(fold: char -> char, desc: string, c: Clause)
    requires c.DescLike? || c.DescEquals?
  {
    match c
    case DescLike(arg) => Like(Lower(fold, desc), Lower(fold, arg))
    case DescEquals(arg) => Lower(fold, desc) == Lower(fold, arg)
  }

  lemma StartsWith(s: string, p: string)
    ensures Like(s, EscapeLike(p) + "%") <==> p <= s
  {
    EscapedIsLiteral(s, p, "%");
    if p <= s { AnythingMatches(s[|p|..]); }
  }

  /** The SQL predicate and the in-memory matcher agree on every description,
      pattern and match type. */
  lemma SqlMatchAgrees(fold: char -> char, desc: string, pattern: string, matchType: string)
    requires FoldOk(fold)
    ensures var c := RuleMatchSQL(matchType, pattern);
            MatchRule(fold, desc, pattern, matchType) == (c.Some? && DescHolds(fold, desc, c.value))
  {
    var d, p, e := Lower(fold, desc), Lower(fold, pattern), EscapeLike(pattern);
    assert Lower(fold, "%") == "%" by { assert "%"[1..] == ""; assert fold('%') == '%'; }
    LowerEscape(fold, pattern);
    if matchType == "contains" {
      LowerAppend(fold, "%" + e, "%");
      LowerAppend(fold, "%", e);
      assert "%" + EscapeLike(p) + "%" == "%" + (EscapeLike(p) + "%");
      WildcardSplits(d, EscapeLike(p) + "%");
      forall k | 0 <= k <= |d| ensures Like(d[k..], EscapeLike(p) + "%") <==> p <= d[k..] {
        StartsWith(d[k..], p);
      }
    } else if matchType == "starts_with" {
      LowerAppend(fold, e, "%");
      StartsWith(d, p);
    }
  }

  // ----- the whole predicate

  datatype Rule = Rule(
    pattern: string, matchType: string, catId: int, payeeId: Option<int>,
    accountId: Option<int>, filterCategoryId: Option<int>, filterPayeeId: Option<int>,
    minAmount: Option<int>, maxAmount: Option<int>, txnType: string,
    dateFrom: Option<int>, dateTo: Option<int>, isLinked: Option<bool>, isRecurring: Option<bool>,
    addTags: seq<string>, notes: string)

  datatype Txn = Txn(
    accountId: int, date: int, description: string, amount: int, kind: string,
    categoryId: Option<int>, payeeId: Option<int>, tags: seq<string>, notes: string)

  datatype Context = Context(
    description: string, accountId: int, amount: int, kind: string, date: int,
    categoryId: Option<int>, payeeId: Option<int>, isLinked: bool, isRecurring: bool)

  /** The tables a rule reads besides the transaction itself. */
  datatype Tables = Tables(closed: set<int>, linked: set<int>, recurring: set<int>)

  predicate PlacesMatch(r: Rule, x: Context) {
    && (r.accountId.Some? ==> r.accountId.value == x.accountId)
    && (r.filterCategoryId.Some? ==> x.categoryId.Some? && x.categoryId.value == r.filterCategoryId.value)
    && (r.filterPayeeId.Some? ==> x.payeeId.Some? && x.payeeId.value == r.filterPayeeId.value)
  }

  predicate AmountsMatch(r: Rule, x: Context) {
    && (r.minAmount.Some? ==> x.amount >= r.minAmount.value)
    && (r.maxAmount.Some? ==> x.amount <= r.maxAmount.value)
    && (r.txnType != "" ==> x.kind == r.txnType)
  }

  predicate TimesMatch(r: Rule, x: Context) {
    && (r.dateFrom.Some? ==> x.date >= r.dateFrom.value)
    && (r.dateTo.Some? ==> x.date <= r.dateTo.value)
    && (r.isLinked.Some? ==> r.isLinked.value == x.isLinked)
    && (r.isRecurring.Some? ==> r.isRecurring.value == x.isRecurring)
  }

  /** The in-memory matcher: the description and every set condition. */
  predicate RuleMatches(fold: char -> char, r: Rule, x: Context) {
    && MatchRule(fold, x.description, r.pattern, r.matchType)
    && PlacesMatch(r, x) && AmountsMatch(r, x) && TimesMatch(r, x)
  }

  function ContextOf(tables: Tables, id: int, t: Txn): Context {
    Context(t.description, t.accountId, t.amount, t.kind, t.date, t.categoryId, t.payeeId,
            id in tables.linked, id in tables.recurring)
  }

  /** A clause as SQL evaluates it on a row: comparing NULL is not true. */
  predicate ClauseHolds(fold: char -> char, tables: Tables, id: int, t: Txn, c: Clause) {
    match c
    case CategoryNull => t.categoryId.None?
    case AccountOpen => t.accountId !in tables.closed
    case DescLike(_) => DescHolds(fold, t.description, c)
    case DescEquals(_) => DescHolds(fold, t.description, c)
    case AccountIs(v) => t.accountId == v
    case CategoryIs(v) => t.categoryId == Some(v)
    case PayeeIs(v) => t.payeeId == Some(v)
    case AmountAtLeast(v) => t.amount >= v
    case AmountAtMost(v) => t.amount <= v
    case TypeIs(v) => t.kind == v
    case DateFrom(v) => t.date >= v
    case DateTo(v) => t.date <= v
    case Linked(wanted) => (id in tables.linked) == wanted
    case Recurring(wanted) => (id in tables.recurring) == wanted
  }

  predicate Holds(fold: char -> char, tables: Tables, id: int, t: Txn, cs: seq<Clause>) {
    forall i :: 0 <= i < |cs| ==> ClauseHolds(fold, tables, id, t, cs[i])
  }

  function When<T>(o: Option<T>, make: T -> Clause): seq<Clause> {
    if o.Some? then [make(o.value)] else []
  }

  function WithPlaces(f: seq<Clause>, r: Rule): seq<Clause> {
    f + When(r.accountId, v => AccountIs(v)) + When(r.filterCategoryId, v => CategoryIs(v))
        + When(r.filterPayeeId, v => PayeeIs(v))
  }

  function WithAmounts(f: seq<Clause>, r: Rule): seq<Clause> {
    f + When(r.minAmount, v => AmountAtLeast(v)) + When(r.maxAmount, v => AmountAtMost(v))
      + When(if r.txnType != "" then Some(r.txnType) else None, v => TypeIs(v))
  }

  function WithTimes(f: seq<Clause>, r: Rule): seq<Clause> {
    f + When(r.dateFrom, v => DateFrom(v)) + When(r.dateTo, v => DateTo(v))
      + When(r.isLinked, v => Linked(v)) + When(r.isRecurring, v => Recurring(v))
  }

  /** The filter `f` grown by a rule's predicate, or none for an unknown match
      type. */
  function RulePredicate(f: seq<Clause>, r: Rule): Option<seq<Clause>> {
    var m := RuleMatchSQL(r.matchType, r.pattern);
    if m.None? then None else Some(WithTimes(WithAmounts(WithPlaces(f + [m.value], r), r), r))
  }

  method Param<T>(f: seq<Clause>, o: Option<T>, make: T -> Clause) returns (out: seq<Clause>)
    ensures out == f + When(o, make)
  {
    out := f;
    if o.Some? {
      out := out + [make(o.value)];
    }
  }

  /** The filter grows clause by clause, one for every condition that is set. */
  method AppendRulePredicate(f: seq<Clause>, r: Rule) returns (out: seq<Clause>, ok: bool)
    ensures ok <==> RulePredicate(f, r).Some?
    ensures out == if ok then RulePredicate(f, r).value else f
  {
    var m := RuleMatchSQL(r.matchType, r.pattern);
    if m.None? {
      return f, false;
    }
    out := f + [m.value];
    out := Param(out, r.accountId, v => AccountIs(v));
    out := Param(out, r.filterCategoryId, v => CategoryIs(v));
    out := Param(out, r.filterPayeeId, v => PayeeIs(v));
    out := Param(out, r.minAmount, v => AmountAtLeast(v));
    out := Param(out, r.maxAmount, v => AmountAtMost(v));
    out := Param(out, if r.txnType != "" then Some(r.txnType) else None, v => TypeIs(v));
    out := Param(out, r.dateFrom, v => DateFrom(v));
    out := Param(out, r.dateTo, v => DateTo(v));
    out := Param(out, r.isLinked, v => Linked(v));
    out := Param(out, r.isRecurring, v => Recurring(v));
    ok := true;
  }

  lemma HoldsAppend(fold: char -> char, tables: Tables, id: int, t: Txn, a: seq<Clause>, b: seq<Clause>)
    ensures Holds(fold, tables, id, t, a + b) <==> Holds(fold, tables, id, t, a) && Holds(fold, tables, id, t, b)
  {
    if Holds(fold, tables, id, t, a + b) {
      forall i | 0 <= i < |a| ensures ClauseHolds(fold, tables, id, t, a[i]) { assert (a + b)[i] == a[i]; }
      forall i | 0 <= i < |b| ensures ClauseHolds(fold, tables, id, t, b[i]) { assert (a + b)[|a| + i] == b[i]; }
    }
  }

  lemma HoldsOne(fold: char -> char, tables: Tables, id: int, t: Txn, c: Clause)
    ensures Holds(fold, tables, id, t, [c]) <==> ClauseHolds(fold, tables, id, t, c)
  {
    assert [c][0] == c;
  }

  lemma HoldsWhen<T>(fold: char -> char, tables: Tables, id: int, t: Txn, f: seq<Clause>, o: Option<T>,
                     make: T -> Clause)
    ensures Holds(fold, tables, id, t, f + When(o, make)) <==>
              Holds(fold, tables, id, t, f) && (o.Some? ==> ClauseHolds(fold, tables, id, t, make(o.value)))
  {
    HoldsAppend(fold, tables, id, t, f, When(o, make));
    if o.Some? { HoldsOne(fold, tables, id, t, make(o.value)); }
  }

  lemma PlacesHold(fold: char -> char, tables: Tables, id: int, t: Txn, f: seq<Clause>, r: Rule)
    ensures Holds(fold, tables, id, t, WithPlaces(f, r))
         == (Holds(fold, tables, id, t, f) && PlacesMatch(r, ContextOf(tables, id, t)))
  {
    var g := f + When(r.accountId, v => AccountIs(v));
    HoldsWhen(fold, tables, id, t, f, r.accountId, v => AccountIs(v));
    HoldsWhen(fold, tables, id, t, g, r.filterCategoryId, v => CategoryIs(v));
    HoldsWhen(fold, tables, id, t, g + When(r.filterCategoryId, v => CategoryIs(v)), r.filterPayeeId, v => PayeeIs(v));
  }

  lemma AmountsHold(fold: char -> char, tables: Tables, id: int, t: Txn, f: seq<Clause>, r: Rule)
    ensures Holds(fold, tables, id, t, WithAmounts(f, r))
         == (Holds(fold, tables, id, t, f) && AmountsMatch(r, ContextOf(tables, id, t)))
  {
    var g := f + When(r.minAmount, v => AmountAtLeast(v));
    HoldsWhen(fold, tables, id, t, f, r.minAmount, v => AmountAtLeast(v));
    HoldsWhen(fold, tables, id, t, g, r.maxAmount, v => AmountAtMost(v));
    HoldsWhen(fold, tables, id, t, g + When(r.maxAmount, v => AmountAtMost(v)),
      if r.txnType != "" then Some(r.txnType) else None, v => TypeIs(v));
  }

  lemma TimesHold(fold: char -> char, tables: Tables, id: int, t: Txn, f: seq<Clause>, r: Rule)
    ensures Holds(fold, tables, id, t, WithTimes(f, r))
         == (Holds(fold, tables, id, t, f) && TimesMatch(r, ContextOf(tables, id, t)))
  {
    var g := f + When(r.dateFrom, v => DateFrom(v));
    HoldsWhen(fold, tables, id, t, f, r.dateFrom, v => DateFrom(v));
    HoldsWhen(fold, tables, id, t, g, r.dateTo, v => DateTo(v));
    var h := g + When(r.dateTo, v => DateTo(v));
    HoldsWhen(fold, tables, id, t, h, r.isLinked, v => Linked(v));
    HoldsWhen(fold, tables, id, t, h + When(r.isLinked, v => Linked(v)), r.isRecurring, v => Recurring(v));
  }

  lemma MatchClauseHolds(fold: char -> char, tables: Tables, id: int, t: Txn, f: seq<Clause>, r: Rule)
    requires FoldOk(fold) && RuleMatchSQL(r.matchType, r.pattern).Some?
    ensures Holds(fold, tables, id, t, f + [RuleMatchSQL(r.matchType, r.pattern).value])
         == (Holds(fold, tables, id, t, f) && MatchRule(fold, t.description, r.pattern, r.matchType))
  {
    var c := RuleMatchSQL(r.matchType, r.pattern).value;
    SqlMatchAgrees(fold, t.description, r.pattern, r.matchType);
    HoldsAppend(fold, tables, id, t, f, [c]);
    HoldsOne(fold, tables, id, t, c);
  }

  /** What a rule adds to a filter holds of a row exactly when the in-memory
      matcher fires on that row; an unknown match type does neither. */
  lemma PredicateAgrees(fold: char -> char, tables: Tables, id: int, t: Txn, f: seq<Clause>, r: Rule)
    requires FoldOk(fold)
    ensures RulePredicate(f, r).None? ==> !RuleMatches(fold, r, ContextOf(tables, id, t))
    ensures RulePredicate(f, r).Some? ==>
              Holds(fold, tables, id, t, RulePredicate(f, r).value)
                == (Holds(fold, tables, id, t, f) && RuleMatches(fold, r, ContextOf(tables, id, t)))
  {
    var m := RuleMatchSQL(r.matchType, r.pattern);
    if m.Some? {
      var g := f + [m.value];
      MatchClauseHolds(fold, tables, id, t, f, r);
      PlacesHold(fold, tables, id, t, g, r);
      AmountsHold(fold, tables, id, t, WithPlaces(g, r), r);
      TimesHold(fold, tables, id, t, WithAmounts(WithPlaces(g, r), r), r);
    }
  }
}
