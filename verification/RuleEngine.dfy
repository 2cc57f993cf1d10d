/** Applying rules: a run of set-based UPDATEs gives every uncategorized
    transaction the actions of the first rule that matches it. */
module RuleEngine {
  import opened Options
  import opened Ordering
  import opened RuleMatching

  // ----- actions

  /** `array_agg(DISTINCT x ORDER BY x)` over the tags and the rule's. */
  function SqlTags(tags: seq<string>, add: seq<string>): seq<string> {
    if add == [] then tags
    else SortedStrings((set x | x in tags) + (set x | x in add))
  }

  function SqlNotes(notes: string, add: string): string {
    if add == "" then notes
    else if notes == "" then add
    else notes + "\n" + add
  }

  /** What one UPDATE writes on a row it selects. */
  function Act(r: Rule, t: Txn): Txn {
    t.(categoryId := Some(r.catId),
       payeeId := if r.payeeId.Some? then r.payeeId else t.payeeId,
       tags := SqlTags(t.tags, r.addTags),
       notes := SqlNotes(t.notes, r.notes))
  }

  // Appends the tags not yet seen; an empty tag only when `empties`.
  function AppendNew(out: seq<string>, tags: seq<string>, empties: bool): seq<string>
    decreases tags
  {
    if tags == [] then out
    else
      var t := tags[0];
      AppendNew(if t in out || (t == "" && !empties) then out else out + [t], tags[1..], empties)
  }

  /** The in-memory union: the transaction's tags first, then the rule's
      non-empty ones, each once. */
  function UnionTags(base: seq<string>, add: seq<string>): seq<string> {
    if add == [] then base else AppendNew(AppendNew([], base, true), add, false)
  }

  method UnionTagsLoop(base: seq<string>, add: seq<string>) returns (out: seq<string>)
    ensures out == UnionTags(base, add)
  {
    if add == [] {
      return base;
    }
    var seen: set<string> := {};
    out := [];
    for i := 0 to |base|
      invariant forall x :: x in seen <==> x in out
      invariant AppendNew(out, base[i..], true) == AppendNew([], base, true)
    {
      assert base[i..][0] == base[i] && base[i..][1..] == base[i + 1..];
      if base[i] !in seen {
        seen := seen + {base[i]};
        out := out + [base[i]];
      }
    }
    for i := 0 to |add|
      invariant forall x :: x in seen <==> x in out
      invariant AppendNew(out, add[i..], false) == UnionTags(base, add)
    {
      assert add[i..][0] == add[i] && add[i..][1..] == add[i + 1..];
      if add[i] != "" && add[i] !in seen {
        seen := seen + {add[i]};
        out := out + [add[i]];
      }
    }
  }

  lemma {:induction false} AppendNewMembers(out: seq<string>, tags: seq<string>, empties: bool)
    requires Distinct(out)
    decreases tags
    ensures Distinct(AppendNew(out, tags, empties)) && out <= AppendNew(out, tags, empties)
    ensures forall x :: x in AppendNew(out, tags, empties) <==> x in out || (x in tags && (x != "" || empties))
  {
    if tags != [] {
      var t := tags[0];
      var out' := if t in out || (t == "" && !empties) then out else out + [t];
      AppendNewMembers(out', tags[1..], empties);
      assert forall x :: x in tags <==> x == t || x in tags[1..];
    }
  }

  lemma {:induction false} AppendDistinct(out: seq<string>, tags: seq<string>)
    requires Distinct(out + tags)
    decreases tags
    ensures AppendNew(out, tags, true) == out + tags
  {
    if tags == [] {
      assert out + tags == out;
    } else {
      assert (out + tags)[|out|] == tags[0];
      assert forall k :: 0 <= k < |out| ==> (out + tags)[k] == out[k];
      assert tags[0] !in out;
      assert out + [tags[0]] + tags[1..] == out + tags;
      AppendDistinct(out + [tags[0]], tags[1..]);
    }
  }

  /** The union keeps the transaction's own tags in front, in order, and adds
      each new non-empty one once. */
  lemma UnionTagsSpec(base: seq<string>, add: seq<string>)
    requires add != []
    ensures Distinct(UnionTags(base, add))
    ensures forall x :: x in UnionTags(base, add) <==> x in base || (x in add && x != "")
    ensures Distinct(base) ==> base <= UnionTags(base, add)
  {
    AppendNewMembers([], base, true);
    AppendNewMembers(AppendNew([], base, true), add, false);
    if Distinct(base) { AppendDistinct([], base); }
  }

  /** The two unions hold the same tags exactly when the rule adds no empty tag
      or the transaction already has one; the UPDATE also sorts them. */
  lemma TagUnionsAgree(base: seq<string>, add: seq<string>)
    ensures (forall x :: x in SqlTags(base, add) <==> x in UnionTags(base, add)) <==> ("" in add ==> "" in base)
  {
    if add != [] {
      SortedStringsSpec((set x | x in base) + (set x | x in add));
      UnionTagsSpec(base, add);
      if "" in add && "" !in base {
        assert "" in SqlTags(base, add) && "" !in UnionTags(base, add);
      }
    }
  }

  // ----- one rule, all rules

  /** Rows a rule's UPDATE selects: uncategorized, on an open account, and
      satisfying the rule's predicate. */
  predicate Selected(fold: char -> char, tables: Tables, id: int, t: Txn, r: Rule) {
    var p := RulePredicate([CategoryNull, AccountOpen], r);
    p.Some? && Holds(fold, tables, id, t, p.value)
  }

  function ApplyOne(fold: char -> char, tables: Tables, txns: map<int, Txn>, r: Rule): map<int, Txn> {
    map id | id in txns :: if Selected(fold, tables, id, txns[id], r) then Act(r, txns[id]) else txns[id]
  }

  function SelectedIds(fold: char -> char, tables: Tables, txns: map<int, Txn>, r: Rule): set<int> {
    set id | id in txns && Selected(fold, tables, id, txns[id], r)
  }

  function ApplySequence(fold: char -> char, tables: Tables, txns: map<int, Txn>, rules: seq<Rule>): map<int, Txn> {
    if rules == [] then txns
    else ApplyOne(fold, tables, ApplySequence(fold, tables, txns, rules[..|rules| - 1]), rules[|rules| - 1])
  }

  function UpdatedBy(fold: char -> char, tables: Tables, txns: map<int, Txn>, rules: seq<Rule>): nat {
    if rules == [] then 0
    else
      var init := rules[..|rules| - 1];
      UpdatedBy(fold, tables, txns, init)
        + |SelectedIds(fold, tables, ApplySequence(fold, tables, txns, init), rules[|rules| - 1])|
  }

  predicate Eligible(tables: Tables, t: Txn) {
    t.categoryId.None? && t.accountId !in tables.closed
  }

  function FirstIndex<T>(s: seq<T>, p: T -> bool): (i: nat)
    ensures i <= |s|
    ensures i < |s| ==> p(s[i])
    ensures forall k :: 0 <= k < i ==> !p(s[k])
  {
    if s == [] || p(s[0]) then 0 else FirstIndex(s[1..], p) + 1
  }

  lemma FirstIndexInit<T>(s: seq<T>, p: T -> bool)
    requires s != []
    ensures var n := |s| - 1;
            var i := FirstIndex(s[..n], p);
            FirstIndex(s, p) == if i < n then i else if p(s[n]) then n else n + 1
  {
    var n := |s| - 1;
    var i, j := FirstIndex(s[..n], p), FirstIndex(s, p);
    assert forall k :: 0 <= k < n ==> s[..n][k] == s[k];
    assert i < n ==> p(s[i]) && j <= i;
    assert j < n ==> p(s[..n][j]) && i <= j;
  }

  /** The first rule, in priority order, that fires on a context. */
  function FirstMatch(fold: char -> char, rules: seq<Rule>, x: Context): (i: nat)
    ensures i <= |rules|
  {
    FirstIndex(rules, r => RuleMatches(fold, r, x))
  }

  /** What applying the rules means for one row, read off its original state. */
  function Outcome(fold: char -> char, tables: Tables, id: int, t: Txn, rules: seq<Rule>): Txn {
    var i := FirstMatch(fold, rules, ContextOf(tables, id, t));
    if Eligible(tables, t) && i < |rules| then Act(rules[i], t) else t
  }

  predicate Matched(fold: char -> char, tables: Tables, id: int, t: Txn, rules: seq<Rule>) {
    Eligible(tables, t) && FirstMatch(fold, rules, ContextOf(tables, id, t)) < |rules|
  }

  lemma SelectedMeans(fold: char -> char, tables: Tables, id: int, t: Txn, r: Rule)
    requires FoldOk(fold)
    ensures Selected(fold, tables, id, t, r) <==> Eligible(tables, t) && RuleMatches(fold, r, ContextOf(tables, id, t))
  {
    var f := [CategoryNull, AccountOpen];
    PredicateAgrees(fold, tables, id, t, f, r);
    assert Holds(fold, tables, id, t, f) <==> Eligible(tables, t) by {
      assert f[0] == CategoryNull && f[1] == AccountOpen;
    }
  }

  lemma FirstMatchInit(fold: char -> char, rules: seq<Rule>, x: Context)
    requires rules != []
    ensures var n := |rules| - 1;
            var i := FirstMatch(fold, rules[..n], x);
            FirstMatch(fold, rules, x) == if i < n then i else if RuleMatches(fold, rules[n], x) then n else n + 1
  {
    FirstIndexInit(rules, r => RuleMatches(fold, r, x));
  }

  lemma OneMoreRule(fold: char -> char, tables: Tables, id: int, t: Txn, rules: seq<Rule>)
    requires FoldOk(fold) && rules != []
    ensures var n := |rules| - 1;
            var before := Outcome(fold, tables, id, t, rules[..n]);
            && Selected(fold, tables, id, before, rules[n])
                 == (Matched(fold, tables, id, t, rules) && !Matched(fold, tables, id, t, rules[..n]))
            && (Matched(fold, tables, id, t, rules[..n]) ==> Matched(fold, tables, id, t, rules))
            && Outcome(fold, tables, id, t, rules)
                 == (if Selected(fold, tables, id, before, rules[n]) then Act(rules[n], before) else before)
  {
    var n := |rules| - 1;
    FirstMatchInit(fold, rules, ContextOf(tables, id, t));
    SelectedMeans(fold, tables, id, Outcome(fold, tables, id, t, rules[..n]), rules[n]);
  }

  /** Running the UPDATEs one rule after another gives each uncategorized
      transaction on an open account the actions of the first rule that matches
      its original state, and changes nothing else. */
  lemma {:induction false} SequenceIsFirstMatch(fold: char -> char, tables: Tables, txns: map<int, Txn>,
                                                rules: seq<Rule>)
    requires FoldOk(fold)
    ensures ApplySequence(fold, tables, txns, rules) == map id | id in txns ::
              Outcome(fold, tables, id, txns[id], rules)
  {
    if rules != [] {
      var init := rules[..|rules| - 1];
      SequenceIsFirstMatch(fold, tables, txns, init);
      forall id | id in txns { OneMoreRule(fold, tables, id, txns[id], rules); }
    } else {
      forall id | id in txns ensures Outcome(fold, tables, id, txns[id], rules) == txns[id] { }
    }
  }

  function MatchedIds(fold: char -> char, tables: Tables, txns: map<int, Txn>, rules: seq<Rule>): set<int> {
    set id | id in txns && Matched(fold, tables, id, txns[id], rules)
  }

  /** The count answered is the number of transactions newly categorized. */
  lemma {:induction false} UpdatedCountsMatched(fold: char -> char, tables: Tables, txns: map<int, Txn>,
                                                rules: seq<Rule>)
    requires FoldOk(fold)
    ensures UpdatedBy(fold, tables, txns, rules) == |MatchedIds(fold, tables, txns, rules)|
  {
    if rules == [] {
      assert MatchedIds(fold, tables, txns, rules) == {};
    } else {
      var init, r := rules[..|rules| - 1], rules[|rules| - 1];
      UpdatedCountsMatched(fold, tables, txns, init);
      SequenceIsFirstMatch(fold, tables, txns, init);
      var now := SelectedIds(fold, tables, ApplySequence(fold, tables, txns, init), r);
      var before, after := MatchedIds(fold, tables, txns, init), MatchedIds(fold, tables, txns, rules);
      forall id ensures id in after <==> id in before || id in now
        ensures !(id in before && id in now)
      {
        if id in txns { OneMoreRule(fold, tables, id, txns[id], rules); }
      }
      assert after == before + now && before * now == {};
    }
  }

  /** A second run updates nothing: whatever was matched is now categorized,
      and whatever was not is unchanged. */
  lemma SecondRunUpdatesNothing(fold: char -> char, tables: Tables, txns: map<int, Txn>, rules: seq<Rule>)
    requires FoldOk(fold)
    ensures var once := ApplySequence(fold, tables, txns, rules);
            ApplySequence(fold, tables, once, rules) == once && UpdatedBy(fold, tables, once, rules) == 0
  {
    var once := ApplySequence(fold, tables, txns, rules);
    SequenceIsFirstMatch(fold, tables, txns, rules);
    SequenceIsFirstMatch(fold, tables, once, rules);
    UpdatedCountsMatched(fold, tables, once, rules);
    forall id | id in once ensures !Matched(fold, tables, id, once[id], rules) {
      assert once[id] == Outcome(fold, tables, id, txns[id], rules);
    }
    assert MatchedIds(fold, tables, once, rules) == {};
  }

  /** What the preview of one rule counts is what applying it updates. */
  lemma PreviewCountsTheUpdate(fold: char -> char, tables: Tables, txns: map<int, Txn>, r: Rule)
    requires FoldOk(fold)
    ensures |SelectedIds(fold, tables, txns, r)| == UpdatedBy(fold, tables, txns, [r])
    ensures SelectedIds(fold, tables, txns, r)
         == set id | id in txns && Eligible(tables, txns[id]) && RuleMatches(fold, r, ContextOf(tables, id, txns[id]))
  {
    assert [r][..0] == [];
    assert ApplySequence(fold, tables, txns, []) == txns;
    forall id | id in txns
      ensures Selected(fold, tables, id, txns[id], r)
           == (Eligible(tables, txns[id]) && RuleMatches(fold, r, ContextOf(tables, id, txns[id])))
    {
      SelectedMeans(fold, tables, id, txns[id], r);
    }
  }

  // ----- what the actions leave on a row

  /** The rule's note joins the transaction's own, which stays in front, on a
      line of its own. */
  predicate NoteJoined(was: string, add: string, now: string) {
    && |now| == |was| + |add| + (if was != "" && add != "" then 1 else 0)
    && was == now[..|was|] && add == now[|now| - |add|..]
    && (was != "" && add != "" ==> now[|was|] == '\n')
  }

  /** The rule's tags are added; once any are, the tags stand in order, each
      once. */
  ghost predicate TagsJoined(was: seq<string>, add: seq<string>, now: seq<string>) {
    && (forall x :: x in now <==> x in was || x in add)
    && (if add == [] then now == was else Sorted(StrLe, now) && Distinct(now))
  }

  /** What a rule makes of a transaction, field by field. */
  ghost predicate IsActedOn(r: Rule, was: Txn, now: Txn) {
    && now.categoryId == Some(r.catId)
    && now.payeeId == (if r.payeeId.Some? then r.payeeId else was.payeeId)
    && TagsJoined(was.tags, r.addTags, now.tags) && NoteJoined(was.notes, r.notes, now.notes)
    && now.accountId == was.accountId && now.date == was.date && now.description == was.description
    && now.amount == was.amount && now.kind == was.kind
  }

  lemma ActIsActedOn(r: Rule, t: Txn)
    ensures IsActedOn(r, t, Act(r, t))
  {
    if r.addTags != [] {
      SortedStringsSpec((set x | x in t.tags) + (set x | x in r.addTags));
    }
  }

  predicate FirstToMatch(fold: char -> char, rules: seq<Rule>, i: nat, x: Context) {
    i < |rules| && RuleMatches(fold, rules[i], x) && forall k :: 0 <= k < i ==> !RuleMatches(fold, rules[k], x)
  }

  /** What a run leaves of one transaction: the first rule that matches it, as it
      was, has acted on it, or no rule may or does and it is unchanged. */
  ghost predicate IsApplied(fold: char -> char, tables: Tables, id: int, was: Txn, now: Txn, rules: seq<Rule>) {
    var x := ContextOf(tables, id, was);
    if was.categoryId.None? && was.accountId !in tables.closed && exists r :: r in rules && RuleMatches(fold, r, x)
    then exists i :: 0 <= i < |rules| && FirstToMatch(fold, rules, i, x) && IsActedOn(rules[i], was, now)
    else now == was
  }

  lemma OutcomeIsApplied(fold: char -> char, tables: Tables, id: int, t: Txn, rules: seq<Rule>)
    ensures IsApplied(fold, tables, id, t, Outcome(fold, tables, id, t, rules), rules)
  {
    var x := ContextOf(tables, id, t);
    var i := FirstMatch(fold, rules, x);
    if i < |rules| {
      assert FirstToMatch(fold, rules, i, x) && rules[i] in rules;
      ActIsActedOn(rules[i], t);
    }
  }

  function NewlyCategorized(was: map<int, Txn>, now: map<int, Txn>): set<int> {
    set id | id in was && id in now && was[id].categoryId.None? && now[id].categoryId.Some?
  }

  lemma RunIsApplied(fold: char -> char, tables: Tables, was: map<int, Txn>, now: map<int, Txn>, rules: seq<Rule>)
    requires now == map id | id in was :: Outcome(fold, tables, id, was[id], rules)
    ensures forall id :: id in now ==> IsApplied(fold, tables, id, was[id], now[id], rules)
    ensures NewlyCategorized(was, now) == MatchedIds(fold, tables, was, rules)
  {
    forall id | id in now
      ensures IsApplied(fold, tables, id, was[id], now[id], rules)
    {
      OutcomeIsApplied(fold, tables, id, was[id], rules);
    }
  }

  // ----- creating a transaction under the rules

  /** `appendNote`, the in-memory counterpart of the UPDATE's expression. */
  function AppendNote(existing: string, note: string): string {
    if note == "" then existing
    else if existing == "" then note
    else existing + "\n" + note
  }

  /** The transaction `CreateTransaction` stores: an uncategorized one takes the
      first matching rule's category, its payee when none was given, its tags
      and its note. A new transaction is neither linked nor recurring. */
  function Created(fold: char -> char, t: Txn, rules: seq<Rule>): Txn {
    var i := FirstMatch(fold, rules,
        Context(t.description, t.accountId, t.amount, t.kind, t.date, None, t.payeeId, false, false));
    if t.categoryId.Some? || i == |rules| then t
    else
      var r := rules[i];
      t.(categoryId := Some(r.catId),
         payeeId := if t.payeeId.Some? then t.payeeId else r.payeeId,
         tags := UnionTags(t.tags, r.addTags),
         notes := AppendNote(t.notes, r.notes))
  }

  ghost predicate SameButTagOrder(a: Txn, b: Txn) {
    a.(tags := []) == b.(tags := []) && forall x :: x in a.tags <==> x in b.tags
  }

  /** Creating a transaction under the rules gives what storing it bare and then
      applying them gives, up to the order of its tags, exactly when the rule
      that fires does not name another payee than the one already given and
      adds no empty tag the transaction lacks. */
  lemma CreatingAgreesWithApplying(fold: char -> char, tables: Tables, id: int, t: Txn, rules: seq<Rule>)
    requires FoldOk(fold) && Eligible(tables, t) && id !in tables.linked && id !in tables.recurring
    ensures SameButTagOrder(Created(fold, t, rules), Outcome(fold, tables, id, t, rules))
       <==> var i := FirstMatch(fold, rules, ContextOf(tables, id, t));
            i == |rules|
            || (&& (t.payeeId.Some? && rules[i].payeeId.Some? ==> t.payeeId == rules[i].payeeId)
                && ("" in rules[i].addTags ==> "" in t.tags))
  {
    var x := ContextOf(tables, id, t);
    assert x == Context(t.description, t.accountId, t.amount, t.kind, t.date, None, t.payeeId, false, false);
    var i := FirstMatch(fold, rules, x);
    if i < |rules| {
      TagUnionsAgree(t.tags, rules[i].addTags);
    }
  }

  // ----- the run as the program executes it

  // A rule whose match type is unknown selects no row.
  lemma UnknownSelectsNothing(fold: char -> char, tables: Tables, txns: map<int, Txn>, r: Rule)
    requires RulePredicate([CategoryNull, AccountOpen], r).None?
    ensures ApplyOne(fold, tables, txns, r) == txns && SelectedIds(fold, tables, txns, r) == {}
  {
  }

  /** The transaction table of one user, updated in place. */
  class RuleStore {
    const fold: char -> char
    const tables: Tables
    var txns: map<int, Txn>

    constructor (fold: char -> char, tables: Tables, txns: map<int, Txn>)
      ensures this.fold == fold && this.tables == tables && this.txns == txns
    {
      this.fold, this.tables, this.txns := fold, tables, txns;
    }

    // One UPDATE over the rows its filter selects.
    method Update(r: Rule, filter: seq<Clause>) returns (updated: nat)
      requires RulePredicate([CategoryNull, AccountOpen], r) == Some(filter)
      modifies this
      ensures txns == ApplyOne(fold, tables, old(txns), r)
      ensures updated == |SelectedIds(fold, tables, old(txns), r)|
    {
      var ids := set id | id in txns && Holds(fold, tables, id, txns[id], filter);
      txns := map id | id in txns :: if id in ids then Act(r, txns[id]) else txns[id];
      updated := |ids|;
      assert ids == SelectedIds(fold, tables, old(txns), r);
    }

    /** Applies the rules, highest priority first, one UPDATE each. */
    method ApplyRules(rules: seq<Rule>) returns (updated: nat)
      requires FoldOk(fold)
      modifies this
      ensures txns == map id | id in old(txns) :: Outcome(fold, tables, id, old(txns)[id], rules)
      ensures forall id :: id in txns ==> IsApplied(fold, tables, id, old(txns)[id], txns[id], rules)
      ensures updated == |MatchedIds(fold, tables, old(txns), rules)| == |NewlyCategorized(old(txns), txns)|
    {
      ghost var start := txns;
      updated := 0;
      for i := 0 to |rules|
        invariant txns == ApplySequence(fold, tables, start, rules[..i])
        invariant updated == UpdatedBy(fold, tables, start, rules[..i])
      {
        assert rules[..i + 1][..i] == rules[..i];
        var filter, ok := AppendRulePredicate([CategoryNull, AccountOpen], rules[i]);
        if ok {
          var n := Update(rules[i], filter);
          updated := updated + n;
        } else {
          UnknownSelectsNothing(fold, tables, txns, rules[i]);
        }
      }
      assert rules[..|rules|] == rules;
      SequenceIsFirstMatch(fold, tables, start, rules);
      UpdatedCountsMatched(fold, tables, start, rules);
      RunIsApplied(fold, tables, start, txns, rules);
    }
  }
}
