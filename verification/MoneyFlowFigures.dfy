/** What the nodes of the money-flow graph hold, in the rows of the queries and
    the edges between accounts. */
module MoneyFlowFigures {
  import opened Ordering
  import opened Currency
  import opened AccountGraph
  import opened FlowSums
  import opened FlowRanking
  import opened MoneyFlow
  import opened MoneyFlowTheorems

  /** The sum of `amount` over the rows that satisfy `p`. */
  function RowSum<R>(rows: seq<R>, p: R -> bool, amount: R -> int): int {
    if rows == [] then 0
    else RowSum(rows[..|rows| - 1], p, amount) + if p(rows[|rows| - 1]) then amount(rows[|rows| - 1]) else 0
  }

  lemma {:induction false} EntriesAreRows<R, K>(entries: seq<Entry<K>>, q: K -> bool, code: string, rows: seq<R>,
                                                p: R -> bool, amount: R -> int)
    requires |entries| == |rows|
    requires forall i :: 0 <= i < |rows| ==>
               (if q(entries[i].key) then Get(entries[i].value, code) else 0) ==
                   if p(rows[i]) then amount(rows[i]) else 0
    ensures EntrySum(entries, q, code) == RowSum(rows, p, amount)
  {
    if rows != [] {
      EntriesAreRows(entries[..|rows| - 1], q, code, rows[..|rows| - 1], p, amount);
    }
  }

  // ----- which rows a node stands for

  /** A node is named by its stage and the identifier of a category or a payee, and
      by a word of its own for the rows without any. */
  predicate Names(id: string, stage: string, none: string, key: string) {
    id == stage + if key == "" then none else key
  }

  ghost function Earned(id: string, code: string): IncomeRow -> bool {
    (r: IncomeRow) => Names(id, "income:", "uncategorized", r.cat) && r.currency == code
  }

  ghost function SpentUnder(id: string, code: string): PaidRow -> bool {
    (r: PaidRow) => Names(id, "category:", "uncategorized", r.cat) && r.currency == code
  }

  ghost function PaidTo(id: string, code: string): PaidRow -> bool {
    (r: PaidRow) => Names(id, "payee:", "none", r.payee) && r.currency == code
  }

  const IncomeTotal := (r: IncomeRow) => r.total
  const SpendTotal := (r: SpendRow) => r.total
  const PaidTotal := (r: PaidRow) => r.total

  // A node that is not the rolled-up one is a kept one, holding its own rows.
  lemma OwnNode(entries: seq<Entry<string>>, kept: set<string>, other: string, n: Node, code: string)
    requires kept <= Totals(entries).Keys && other !in Totals(entries) && n in Stage(Totals(entries), kept, other)
    requires n.id != other
    ensures Get(n.total, code) == EntrySum(entries, Is(n.id), code)
  {
    NodeHoldsItsContributions(entries, kept, other, n, code);
    StageNodes(Totals(entries), kept, other);
    SameSelection(entries, Is(n.id), entries, Under(kept, other, n.id), code);
  }

  lemma IdsAreNames(id: string, key: string)
    ensures Names(id, "income:", "uncategorized", key) <==> id == IncomeId(key)
    ensures Names(id, "category:", "uncategorized", key) <==> id == CategoryId(key)
    ensures Names(id, "payee:", "none", key) <==> id == PayeeId(key)
  {
    assert "income:" + "uncategorized" == "income:uncategorized";
    assert "category:" + "uncategorized" == "category:uncategorized";
    assert "payee:" + "none" == "payee:none";
  }

  lemma IncomeRowsUnder(rows: seq<IncomeRow>, id: string, code: string)
    ensures EntrySum(IncomeEntries(rows), Is(id), code) == RowSum(rows, Earned(id, code), IncomeTotal)
  {
    forall i | 0 <= i < |rows|
      ensures Is(id)(IncomeEntries(rows)[i].key) <==> Names(id, "income:", "uncategorized", rows[i].cat)
    {
      IdsAreNames(id, rows[i].cat);
    }
    EntriesAreRows(IncomeEntries(rows), Is(id), code, rows, Earned(id, code), IncomeTotal);
  }

  lemma CategoryRowsUnder(rows: seq<PaidRow>, id: string, code: string)
    ensures EntrySum(CategoryEntries(rows), Is(id), code) == RowSum(rows, SpentUnder(id, code), PaidTotal)
  {
    forall i | 0 <= i < |rows|
      ensures Is(id)(CategoryEntries(rows)[i].key) <==> Names(id, "category:", "uncategorized", rows[i].cat)
    {
      IdsAreNames(id, rows[i].cat);
    }
    EntriesAreRows(CategoryEntries(rows), Is(id), code, rows, SpentUnder(id, code), PaidTotal);
  }

  lemma PayeeRowsUnder(rows: seq<PaidRow>, id: string, code: string)
    ensures EntrySum(PayeeEntries(rows), Is(id), code) == RowSum(rows, PaidTo(id, code), PaidTotal)
  {
    forall i | 0 <= i < |rows|
      ensures Is(id)(PayeeEntries(rows)[i].key) <==> Names(id, "payee:", "none", rows[i].payee)
    {
      IdsAreNames(id, rows[i].payee);
    }
    EntriesAreRows(PayeeEntries(rows), Is(id), code, rows, PaidTo(id, code), PaidTotal);
  }

  /** An income node holds exactly the rows of its category. */
  lemma IncomeNodeIsItsRows(x: Inputs, n: Node, code: string)
    requires Sound(x) && n in IncomeStage(x) && n.id != "income:other"
    ensures Get(n.total, code) == RowSum(x.income, Earned(n.id, code), IncomeTotal)
  {
    IncomeKeys(x);
    OwnNode(IncomeEntries(x.income), KeptOf(x).income, OTHER_INCOME, n, code);
    IncomeRowsUnder(x.income, n.id, code);
  }

  lemma CategoryNodeIsItsRows(x: Inputs, n: Node, code: string)
    requires Sound(x) && n in CategoryStage(x) && n.id != "category:other"
    ensures Get(n.total, code) == RowSum(x.paid, SpentUnder(n.id, code), PaidTotal)
  {
    CategoryKeys(x);
    OwnNode(CategoryEntries(x.paid), KeptOf(x).category, OTHER_CATEGORY, n, code);
    CategoryRowsUnder(x.paid, n.id, code);
  }

  lemma PayeeNodeIsItsRows(x: Inputs, n: Node, code: string)
    requires Sound(x) && n in PayeeStage(x) && n.id != "payee:other"
    ensures Get(n.total, code) == RowSum(x.paid, PaidTo(n.id, code), PaidTotal)
  {
    PayeeKeys(x);
    OwnNode(PayeeEntries(x.paid), KeptOf(x).payee, OTHER_PAYEE, n, code);
    PayeeRowsUnder(x.paid, n.id, code);
  }

  // ----- whole stages

  ghost function EarnedIn(code: string): IncomeRow -> bool { (r: IncomeRow) => r.currency == code }

  ghost function PaidIn(code: string): PaidRow -> bool { (r: PaidRow) => r.currency == code }

  lemma AllIncomeRows(rows: seq<IncomeRow>, code: string)
    ensures EntrySum(IncomeEntries(rows), k => true, code) == RowSum(rows, EarnedIn(code), IncomeTotal)
  {
    EntriesAreRows(IncomeEntries(rows), k => true, code, rows, EarnedIn(code), IncomeTotal);
  }

  lemma AllPaidRows(rows: seq<PaidRow>, code: string)
    ensures EntrySum(CategoryEntries(rows), k => true, code) == RowSum(rows, PaidIn(code), PaidTotal)
    ensures EntrySum(PayeeEntries(rows), k => true, code) == RowSum(rows, PaidIn(code), PaidTotal)
  {
    EntriesAreRows(CategoryEntries(rows), k => true, code, rows, PaidIn(code), PaidTotal);
    EntriesAreRows(PayeeEntries(rows), k => true, code, rows, PaidIn(code), PaidTotal);
  }

  lemma IncomeStageIsItsRows(x: Inputs, code: string)
    requires Sound(x)
    ensures NodeSum(IncomeStage(x), code) == RowSum(x.income, EarnedIn(code), IncomeTotal)
  {
    IncomeKeys(x);
    StageConserves(IncomeEntries(x.income), KeptOf(x).income, OTHER_INCOME, code);
    AllIncomeRows(x.income, code);
  }

  lemma PaidStagesAreTheirRows(x: Inputs, code: string)
    requires Sound(x)
    ensures NodeSum(CategoryStage(x), code) == RowSum(x.paid, PaidIn(code), PaidTotal)
    ensures NodeSum(PayeeStage(x), code) == RowSum(x.paid, PaidIn(code), PaidTotal)
  {
    CategoryKeys(x);
    PayeeKeys(x);
    StageConserves(CategoryEntries(x.paid), KeptOf(x).category, OTHER_CATEGORY, code);
    StageConserves(PayeeEntries(x.paid), KeptOf(x).payee, OTHER_PAYEE, code);
    AllPaidRows(x.paid, code);
  }

  /** Each capped stage adds up to all the rows it was made from, so that what the
      rolled-up node holds is the rows of the categories or payees not shown. */
  lemma StagesAreTheirRows(x: Inputs, code: string)
    requires Sound(x)
    ensures NodeSum(IncomeStage(x), code) == RowSum(x.income, EarnedIn(code), IncomeTotal)
    ensures NodeSum(CategoryStage(x), code) == RowSum(x.paid, PaidIn(code), PaidTotal)
    ensures NodeSum(PayeeStage(x), code) == RowSum(x.paid, PaidIn(code), PaidTotal)
  {
    IncomeStageIsItsRows(x, code);
    PaidStagesAreTheirRows(x, code);
  }

  // ----- accounts

  ghost function EarnedBy(id: string, code: string): IncomeRow -> bool {
    (r: IncomeRow) => id == "account:" + r.acct && r.currency == code
  }

  ghost function SpentBy(id: string, code: string): SpendRow -> bool {
    (r: SpendRow) => id == "account:" + r.acct && r.currency == code
  }

  ghost function Arriving(id: string): FlowEdge -> bool { (e: FlowEdge) => id == "account:" + e.pair.dst }

  ghost function Leaving(id: string): FlowEdge -> bool { (e: FlowEdge) => id == "account:" + e.pair.src }

  ghost function Carried(code: string): FlowEdge -> int { (e: FlowEdge) => Get(e.value, code) }

  lemma {:induction false} EntriesSplit(a: seq<Entry<string>>, b: seq<Entry<string>>, id: string, code: string)
    ensures EntrySum(a + b, Is(id), code) == EntrySum(a, Is(id), code) + EntrySum(b, Is(id), code)
  {
    if b == [] {
      assert a + b == a;
    } else {
      EntriesSplit(a, b[..|b| - 1], id, code);
      assert (a + b)[..|a + b| - 1] == a + b[..|b| - 1];
    }
  }

  lemma AccountTakesIn(x: Inputs, id: string, code: string)
    ensures Get(At(Totals(AcctIn(x)), id), code)
              == RowSum(x.income, EarnedBy(id, code), IncomeTotal) + RowSum(x.edges, Arriving(id), Carried(code))
  {
    TotalIsSum(AcctIn(x), id, code);
    EntriesSplit(EarnedEntries(x.income), ArrivingEntries(x.edges), id, code);
    EntriesAreRows(EarnedEntries(x.income), Is(id), code, x.income, EarnedBy(id, code), IncomeTotal);
    EntriesAreRows(ArrivingEntries(x.edges), Is(id), code, x.edges, Arriving(id), Carried(code));
  }

  lemma AccountGivesOut(x: Inputs, id: string, code: string)
    ensures Get(At(Totals(AcctOut(x)), id), code)
              == RowSum(x.spend, SpentBy(id, code), SpendTotal) + RowSum(x.edges, Leaving(id), Carried(code))
  {
    TotalIsSum(AcctOut(x), id, code);
    EntriesSplit(SpentEntries(x.spend), LeavingEntries(x.edges), id, code);
    EntriesAreRows(SpentEntries(x.spend), Is(id), code, x.spend, SpentBy(id, code), SpendTotal);
    EntriesAreRows(LeavingEntries(x.edges), Is(id), code, x.edges, Leaving(id), Carried(code));
  }

  lemma AccountMoved(x: Inputs, id: string)
    requires id in AcctNodes(x)
    ensures (exists r :: r in x.income && id == "account:" + r.acct)
            || (exists r :: r in x.spend && id == "account:" + r.acct)
            || (exists e :: e in x.edges && (id == "account:" + e.pair.src || id == "account:" + e.pair.dst))
  {
    assert id in Earners(x.income) || id in Spenders(x.spend) || id in Movers(x.edges);
  }

  lemma AccountNode(x: Inputs, n: Node, code: string)
    requires Sound(x) && n in AcctStage(x)
    ensures n.id in AcctNodes(x)
    ensures var flowIn, flowOut := Get(At(Totals(AcctIn(x)), n.id), code), Get(At(Totals(AcctOut(x)), n.id), code);
            Get(n.total, code) == if flowIn >= flowOut then flowIn else flowOut
  {
    var k := KeptOf(x);
    AccountNodeIsTheLarger(x, n, code);
    AcctKeys(x);
    StageNodes(AcctNodes(x), AcctNodes(x).Keys, "");
    ContributionsNonNegative(x, k);
    LinksCarryContributions(EdgeEntries(x, k), From(n.id), code);
    LinksCarryContributions(EdgeEntries(x, k), Into(n.id), code);
    AccountIn(x, k, n.id, code);
    AccountOut(x, k, n.id, code);
  }

  /** An account node holds the larger of what the account earned or was sent and
      what it spent or sent on; there is one only for an account that did. */
  lemma AccountNodeIsItsRows(x: Inputs, n: Node, code: string)
    requires Sound(x) && n in AcctStage(x)
    ensures var flowIn := RowSum(x.income, EarnedBy(n.id, code), IncomeTotal)
                          + RowSum(x.edges, Arriving(n.id), Carried(code));
            var flowOut := RowSum(x.spend, SpentBy(n.id, code), SpendTotal)
                           + RowSum(x.edges, Leaving(n.id), Carried(code));
            Get(n.total, code) == if flowIn >= flowOut then flowIn else flowOut
    ensures (exists r :: r in x.income && n.id == "account:" + r.acct)
            || (exists r :: r in x.spend && n.id == "account:" + r.acct)
            || (exists e :: e in x.edges && (n.id == "account:" + e.pair.src || n.id == "account:" + e.pair.dst))
  {
    AccountTakesIn(x, n.id, code);
    AccountGivesOut(x, n.id, code);
    AccountNode(x, n, code);
    AccountMoved(x, n.id);
  }
}
