# FinTrak: verified model of the ledger's algorithms

FinTrak is a personal-finance server. This project models the parts of its Go
handlers that compute something, and proves what they promise:

- **Account flows and the circular-money report.** Links between transactions
  are aggregated into directed flows between accounts, netted per currency and
  made acyclic by a depth-first walk. Everything the graph leaves out is
  reported in cycles, and that report is complete (`AccountGraph`,
  `WalkProofs`, `FlowTheorems`, `FlowAccounting`, `FlowMeaning`,
  `AccountFlows`, `LinkCycles`, `LinkCycleFigures`).
- **The money-flow graph.** Income, accounts, categories and payees as stages
  of nodes capped at a limit, with an Other node and edges drawn through the
  same rollup (`FlowRanking`, `FlowSums`, `MoneyFlow`, `MoneyFlowTheorems`,
  `MoneyFlowFigures`, `MoneyFlowShape`, `MoneyFlowBuild`).
- **Loans.** The amortization table in whole cents, its drift from the exact
  schedule, payment matching, payoffs and balance transfers (`Amortization`,
  `AmortizationProofs`, `LoanDrift`, `LoanInterest`, `LoanDetail`,
  `LoanTransfers`, `LoanFigures`, `LoanLedger`, `LoanAcceptance`).
- **Rules.** The SQL filter a rule adds, the in-memory matcher, and the
  sequence of UPDATEs that applies the rules (`RuleMatching`, `RuleEngine`).
- **Sessions.** Login, refresh-token rotation, logout and revocation as
  interleaved statements over token families and session rows
  (`SessionStore`, `SessionProtocol`, `SessionInvariants`,
  `SessionTheorems`, `SessionIsolation`, `SessionClock`, `SessionRequests`).
- **Billing cycles.** Statement periods generated from a billing day that may
  change (`BillingCycles`, `BillingTheorems`, `BillingTotals`).
- **Recurring series.** Schedules with early-exit searches, effective-dated
  terms and their edits, and the suggestion page (`RecurringSchedule`,
  `RecurringTerms`, `RecurringEdits`, `RecurringSuggestions`).
- **Backup restore.** Staged renaming of a bundle's identifiers
  and what the tables then refuse (`BackupPayees`, `BackupRestore`,
  `BackupTheorems`, `BackupRenaming`, `BackupAcceptance`, `BackupMeaning`,
  `BackupRun`).

`Ordering`, `Currency`, `Sums`, `Calendar`, `Rounding` and `Options` hold what
several of them share.

## How the program is modelled

A SQL statement or the body of a transaction is one atomic step over maps and
sequences. Amounts are unbounded integers in minor units; the monthly rate and
the solved installment are real numbers, rounded half away from zero where the
program rounds. Dates are a month and a day, or day numbers. The clock, fresh
identifiers and query results are parameters. Code that changes state in loops
is written as methods and classes with loops, each proved equal to a function
whose properties are the lemmas; pure code is functions.

Hypotheses that the database or the queries guarantee appear as preconditions:
unique constraints (in a restore they are not assumed but decide the outcome),
UUID text in identifiers (so an identifier is never the word `other` and
contains no `|`), and that the two debit queries of the money-flow graph group
the same transactions. That the amounts in the money-flow graph are not
negative is an assumption: the schema has no such check, and a restored backup
may break it. Case folding in rules is any per-character folding that leaves the LIKE
characters alone.

## Where the code and its documentation part

- `models.go:1232-1236` says a one-key `Net` is what circulates a cycle. With a
  zero-valued leg it is not: `LinkCycles.SingleKeyNetNeedNotCirculate`. The
  exact condition is `LinkCycles.NetIsCirculation`.
- `billing_cycle.go:318-320` says the detached flag is cleared when cycles are
  dropped. Only rows attached to a cycle lose it; a row already without a cycle
  keeps it (`BillingTheorems.DropForgetsOnlyAttachedRows`). The file's header
  calls a cycle a half-open window; its end date is inclusive.
- `recurring.go:1090-1095` says the unique index catches a concurrent insert of
  an overlapping range. It catches only an equal start
  (`RecurringEdits.RacingCreates`).
- `auth.go:400-413` says why the two halves of a session are revoked together.
  A revocation that crosses a login still separates them
  (`SessionTheorems.OvertakenLoginStaysHalfAlive`,
  `SessionTheorems.EveryCrossingCanSplit`); without faults nothing else does
  (`SessionTheorems.OnlyOvertakingSplitsASession`,
  `SessionTheorems.HalvesAgree`).
- `backup.go:1157-1160` gives a second linked payee an id suffix so that names
  stay unique; the made-up name can be taken, and the whole restore is then
  refused (`BackupPayees.MadeUpNameCanBeTaken`,
  `BackupPayees.MergedNamesAreUniqueExactlyWhen`,
  `BackupAcceptance.MadeUpNameRefusesTheBundle`).
- A recast of a loan with installments paid ahead of the transfer date may add
  less than the payoff or more (`LoanLedger.PrepaidRecastAddsLess`,
  `LoanLedger.PrepaidRecastAddsMore`): they are charged again by the new table.
  By how much, and so when it adds exactly the payoff, is
  `LoanLedger.RecastRaisesTheTarget`.
- Creating a transaction and applying the rules treat a payee already given,
  and an empty rule tag, differently (`RuleEngine.CreatingAgreesWithApplying`).
- A lone billing cycle hides a change from the 31st to the 30th when it ends in
  a 30-day month (`BillingTheorems.LoneCycleKeepsItsOldStart`,
  `BillingTheorems.RealignedExactlyWhen`).

## Model

| member | source | states |
|---|---|---|
| FlowMeaning.GrossIsLinkSum | backend/handlers/money_flow.go:537-592 | for every directed account pair the aggregated flow is, per currency, the sum of its links: a link between a debit and a credit side counts from the debit account to the credit account whichever end is stored first, one between two sides of a kind as stored, and one within an account nowhere |
| FlowMeaning.StoredEndIsIrrelevant | backend/handlers/money_flow.go:537-592 | exchanging the two stored ends of any link between a debit and a credit side leaves the drawn edges and the cycles unchanged |
| FlowMeaning.DrawnIsTheExcess | backend/handlers/money_flow.go:567-751 | what is drawn between two accounts is, per currency, the excess of the links one way over the links the other way |
| FlowMeaning.RowOrderIsIrrelevant | backend/handlers/money_flow.go:567-726 | the drawn edges and reported cycles depend only on which links there are, not on the order the query returned them |
| FlowMeaning.NettingKeepsBalance | backend/handlers/money_flow.go:737-751 | netting a reciprocal pair leaves the balance between the accounts unchanged in a currency if and only if neither side holds a negative amount the other does not offset |
| FlowMeaning.NettingCancelsTheSmaller | backend/handlers/money_flow.go:737-751 | netting takes the smaller amount from each side, so at most one direction survives in a currency |
| FlowTheorems.DrawnGraphIsAcyclic | backend/handlers/money_flow.go:641-726 | the edges kept by the depth-first walk contain no directed cycle, for any links |
| FlowTheorems.DroppedEdgesCloseLoops | backend/handlers/money_flow.go:641-726 | every netted edge that is not drawn closes a loop of drawn edges, so the dropped set is inclusion-minimal |
| FlowTheorems.DrawnOnceInOrder | backend/handlers/money_flow.go:641-726 | no account pair is drawn twice and the edges come in pair order |
| FlowTheorems.DrawnAre | backend/handlers/money_flow.go:606-726 | kept and dropped edges partition the netted ones; what is drawn is the netted value, everything else draws nothing |
| FlowAccounting.NothingHidden | backend/handlers/money_flow.go:567-810 | for every pair with links either the gross flow is drawn whole or the pair is a leg of a returned cycle, and gross equals drawn plus discarded in every currency |
| FlowAccounting.DroppedReported | backend/handlers/money_flow.go:757-810 | an edge dropped by the cycle break is a leg of a cycle that survives de-duplication by participants |
| FlowAccounting.BothWaysReported | backend/handlers/money_flow.go:606-639 | a pair that flows both ways is a leg of a returned cycle |
| FlowAccounting.ReportedLegs | backend/handlers/money_flow.go:697-716 | every leg of every returned cycle carries the gross flow of its pair and, as discarded, exactly the part of it that is not drawn |
| FlowAccounting.SameKeyHasClosing | backend/handlers/money_flow.go:790-810 | whichever loop survives for a set of participants still has the dropped edge as a leg |
| FlowAccounting.DescentUnique | backend/handlers/money_flow.go:659-695 | a path of the depth-first tree is determined by its set of vertices |
| FlowMeaning.LoopsAreBrokenAtOneLeg | backend/handlers/money_flow.go:641-726 | in a returned loop the closing leg is not drawn and every other leg is |
| FlowMeaning.ReportedOnceInOrder | backend/handlers/money_flow.go:790-810 | no two returned cycles have the same participants; reciprocal pairs come first, then loops, each in text order |
| AccountFlows.NetFlowAmounts | backend/handlers/money_flow.go:737-751 | the loops over both sides compute the netted amounts of each direction |
| AccountFlows.StackCycle | backend/handlers/money_flow.go:757-784 | the stack search finds the loop a back edge closes, with its legs, or none |
| AccountFlows.FlowWalk.Visit | backend/handlers/money_flow.go:658-695 | the recursive walk over mutable state, stack, kept and dropped lists does what the mathematical walk does, and terminates |
| AccountFlows.DedupeCycles | backend/handlers/money_flow.go:790-810 | the seen-map loop keeps the first cycle of each participant key |
| AccountFlows.FillDiscarded | backend/handlers/money_flow.go:697-716 | each leg is given what of it was not drawn |
| AccountFlows.AnalyzeAccountFlows | backend/handlers/money_flow.go:567-726 | the whole in-place analysis returns exactly the edges and cycles that these theorems determine from the links |
| FlowRanking.CompareTotals | backend/handlers/money_flow.go:1187-1213 | the loop over the sorted union of currencies computes the comparison |
| FlowRanking.CompareDecides | backend/handlers/money_flow.go:1187-1213 | the comparison is decided by the first currency in which the totals differ, an absent code reading as zero, and is 0 exactly when every currency agrees |
| FlowRanking.TotalsArePreordered | backend/handlers/money_flow.go:1187-1213 | the comparison is a total preorder although each call walks a different union of currencies |
| FlowRanking.KeepTopKeepsTheLargest | backend/handlers/money_flow.go:1218-1238 | a capped stage keeps min(limit, n) nodes and no kept node ranks after a rolled-up one |
| FlowRanking.KeepTopFlowNodes | backend/handlers/money_flow.go:1218-1238 | the kept set is the same whatever order the map was listed in |
| MoneyFlowTheorems.StageConserves | backend/handlers/money_flow.go:1243-1281 | the rendered nodes of a capped stage, Other included, add up to all of its rows in every currency |
| MoneyFlowTheorems.NodeHoldsItsContributions | backend/handlers/money_flow.go:1243-1281 | each rendered node holds exactly the contributions that roll up into it |
| MoneyFlowTheorems.IncomeNodeIsItsEdges | backend/handlers/money_flow.go:966-1071 | an income node, Other included, holds what its edges carry away |
| MoneyFlowTheorems.CategoryNodeIsItsEdges | backend/handlers/money_flow.go:966-1071 | a category node holds what its edges bring in and what they carry away, given that both debit queries group the same transactions |
| MoneyFlowTheorems.PayeeNodeIsItsEdges | backend/handlers/money_flow.go:966-1071 | a payee node holds what its edges bring in |
| MoneyFlowTheorems.AccountNodeIsTheLarger | backend/handlers/money_flow.go:978-1070 | an account node holds, per currency, the larger of its in-edges and out-edges |
| MoneyFlowTheorems.LinksCarryContributions | backend/handlers/money_flow.go:1017-1081 | the links drawn carry all contributions, although non-positive amounts draw nothing |
| MoneyFlowFigures.IncomeNodeIsItsRows | backend/handlers/money_flow.go:918-975 | an income node holds, per currency, exactly the income rows of its category |
| MoneyFlowFigures.CategoryNodeIsItsRows | backend/handlers/money_flow.go:978-1010 | a category node holds exactly the spending rows of its category |
| MoneyFlowFigures.PayeeNodeIsItsRows | backend/handlers/money_flow.go:978-1010 | a payee node holds exactly the rows paid to it |
| MoneyFlowFigures.StagesAreTheirRows | backend/handlers/money_flow.go:1243-1281 | each capped stage adds up to all the rows of its query, so the Other node holds the rows of what is not shown |
| MoneyFlowFigures.AccountNodeIsItsRows | backend/handlers/money_flow.go:978-1070 | an account node holds, per currency, the larger of what it earned or was sent and what it spent or sent on, and there is one only for an account that moved money |
| MoneyFlowShape.EveryEdgeHasItsNodes | backend/handlers/money_flow.go:1011-1070 | both ends of every link are nodes of the response, after the rollup |
| MoneyFlowShape.NoNodeTwice | backend/handlers/money_flow.go:881-907 | no node id appears twice, within or across stages |
| MoneyFlowShape.NoMoneyGoesRound | backend/handlers/money_flow.go:990-1081 | the whole graph over all four stages is acyclic, for any rows and links |
| MoneyFlowBuild.MaxFlowAmounts | backend/handlers/money_flow.go:1164-1178 | the two loops compute the per-currency maximum |
| MoneyFlowBuild.OrderedFlowNodes | backend/handlers/money_flow.go:1243-1281 | a stage is rendered as its kept nodes by volume and, only when some are left, one Other node |
| MoneyFlowBuild.AddEdge | backend/handlers/money_flow.go:1022-1033 | only positive amounts reach an edge and an edge without any is not created |
| MoneyFlowBuild.BuildMoneyFlowGraph | backend/handlers/money_flow.go:918-1115 | the accumulating loops build exactly the graph the theorems are about, with the cycles of the analysis |
| LinkCycles.EveryFlowIsReported | backend/handlers/link_cycles.go:238-359 | each directed account pair is a leg of at least one reported cycle or exactly one one-sided flow, never both and never neither |
| LinkCycles.NetIsSmallestHolding | backend/handlers/link_cycles.go:372-386 | Net is, in every currency, the smallest amount among the legs that hold that currency |
| LinkCycles.GrossIsLegSum | backend/handlers/link_cycles.go:298-325 | Gross is the sum of the legs, currency by currency |
| LinkCycles.NetIsCirculation | backend/models/models.go:1229-1258 | a net amount circulates the whole loop if and only if every leg holds that currency |
| LinkCycles.SingleKeyNetNeedNotCirculate | backend/models/models.go:1232-1236 | two link rows whose report has a cycle with a one-key net that nothing circulates, contrary to the field documentation |
| LinkCycles.LegsAgreeWithTypes | backend/handlers/link_cycles.go:238-278 | each pair's total and count are the sums of its per-type totals and counts |
| LinkCycles.MinCycleAmounts | backend/handlers/link_cycles.go:372-386 | the loops compute the minimum over the legs holding a currency |
| LinkCycles.BuildLinkCycleReport | backend/handlers/link_cycles.go:238-359 | the accumulating loops build exactly the report whose figures and completeness the lemmas state |
| LinkCycleFigures.PairTotalsAreLinks | backend/handlers/link_cycles.go:238-278 | a pair's total, count and per-type figures are the sums and counts of the links from its debit to its credit account, of each type |
| LinkCycleFigures.ReportFigures | backend/handlers/link_cycles.go:280-386 | in the report, a cycle's gross is per currency the sum over its legs, its net the least amount among the legs holding the currency, its transactions the sum of their counts, the total circular the sum of the nets, and each leg and one-sided flow shows its links' figures |
| AmortizationProofs.RepaysExactly | backend/handlers/loan.go:1330-1424 | for any installment solver whatever every part and balance is non-negative, the principal parts add up to the principal plus applied transfers, and the last balance is zero |
| AmortizationProofs.EntryAt | backend/handlers/loan.go:1377-1419 | each row: amount is principal plus interest, the balance falls by the principal, and a non-final amount never exceeds the larger of installment and interest |
| AmortizationProofs.NothingRisesBetweenRecasts | backend/handlers/loan.go:1352-1419 | between recasts, after any broken first period, neither interest nor balance rises |
| LoanDrift.ExactEMIClears | backend/handlers/loan.go:1533-1542 | in real arithmetic the solved installment clears the loan exactly in n payments |
| LoanDrift.StubEMIClears | backend/handlers/loan.go:1495-1505 | so does the form that carries a broken first period |
| LoanDrift.FinalInstallmentDrift | backend/handlers/loan.go:1330-1424 | without stub, transfer or clamped installment the final installment differs from the charged one by at most (its distance from the exact one plus a half) compounded over the periods |
| LoanDrift.QuotedDrift | backend/handlers/loan.go:1522-1542 | with the installment the program quotes, that distance is under a rupee |
| Amortization.LoanAmortization | backend/handlers/loan.go:1330-1424 | the loop over remaining, emi and next generates the table whose rows, interest and installments the lemmas give in the loan's own numbers |
| LoanInterest.RowInterest | backend/handlers/loan.go:1330-1419 | the interest of each row is the balance times the annual rate over 120000, rounded halves up; in a broken first period the same for its days out of thirty |
| LoanInterest.BrokenInterestIs | backend/handlers/loan.go:1484-1489 | a broken period is charged for its days out of thirty, so thirty days are charged exactly a month |
| LoanInterest.StubIsBrokenStart | backend/handlers/loan.go:1469-1482 | there is a broken period exactly when the money was released before the first due date and not a month ahead of it to the day |
| LoanInterest.OpeningIs | backend/handlers/loan.go:1352-1376 | what a row is charged on is the balance before it plus the transfers dated before it falls due and after the row before |
| LoanInterest.RowAmount | backend/handlers/loan.go:1377-1419 | a row charges the installment in force, or its interest when that is more, and the last row whatever is left |
| LoanInterest.InstallmentInForce | backend/handlers/loan.go:1352-1376 | the installment in force is the one quoted at the start or by the latest recast |
| LoanInterest.LevelIsQuoted | backend/handlers/loan.go:1522-1542 | the quoted installment is in whole rupees, no less than the exact level one but for half a cent and less than a rupee more |
| LoanInterest.StubEMIIsNearTheExact | backend/handlers/loan.go:1495-1505 | the installment of a loan with a broken first period is within half a cent of the one that clears it |
| LoanDetail.LoadDetail | backend/handlers/loan.go:1020-1165 | the derivation loops compute the loan detail the lemmas are about |
| LoanFigures.PaymentsAre | backend/handlers/loan.go:1097-1130 | payments out count and refunds are taken off |
| LoanFigures.LastPaidIs | backend/handlers/loan.go:1097-1130 | the last paid date is that of the payment that covered the last covered installment |
| LoanFigures.TransferSums | backend/handlers/loan.go:1055-1096 | the recasts into a loan are its adjustments, and the takeovers what is paid out of it |
| LoanFigures.DetailFigures | backend/handlers/loan.go:1055-1175 | what is paid, what the loan costs and what comes due next are read off the rows marked paid and void |
| LoanFigures.PayoffFigures | backend/handlers/loan.go:1430-1467 | a payoff quote runs from the last covered installment, the release of the money or a month before the first due date, and charges the days since out of thirty |
| LoanTransfers.PaymentsCoverAPrefix | backend/handlers/loan.go:1097-1175 | payments mark a prefix of min(debit payments, tenure) installments, a settled loan's others are void, and the loan is complete exactly when nothing is left owed |
| LoanTransfers.OutstandingIsUnpaid | backend/handlers/loan.go:1055-1148 | an unsettled loan owes its unpaid principal parts plus the transfers not yet taken up, so the negative clamp never fires |
| LoanTransfers.PayoffCoversPrincipal | backend/handlers/loan.go:1430-1467 | a payoff is the principal owed plus non-negative accrued interest |
| LoanTransfers.RecastIsLocal | backend/handlers/loan.go:1352-1376 | a transfer dated d leaves the run of every installment due on or before d unchanged |
| LoanTransfers.EarlierInstallmentsStay | backend/handlers/loan.go:1352-1376 | so every figure of those installments is unchanged in the whole table |
| LoanLedger.TransferSettlesTheSource | backend/handlers/loan.go:452-640 | an accepted transfer leaves the source owing nothing, voids its unpaid installments and keeps its paid ones figure for figure |
| LoanLedger.RecastRaisesTheTarget | backend/handlers/loan.go:493-640 | an accepted recast raises what the target owes by the payoff less what the new table charges over the old one in the installments paid ahead of the transfer date, so by exactly the payoff if and only if the two tables charge those installments the same |
| LoanLedger.RecastRaisesTheTargetByThePayoff | backend/handlers/loan.go:493-640 | when the target's paid installments fell due by the transfer date, a recast raises what it owes by exactly the payoff |
| LoanLedger.PrepaidRecastAddsLess | backend/handlers/loan.go:1352-1376 | an accepted transfer of 200.00 to a loan with an installment paid ahead that raises what it owes by 100.00 |
| LoanLedger.PrepaidRecastAddsMore | backend/handlers/loan.go:1352-1376 | an accepted transfer of 0.01 to a loan with an installment paid ahead that raises what it owes by 1.01 |
| LoanLedger.TransferConservesWhatIsOwed | backend/handlers/loan.go:452-640 | together the two loans owe what they owed plus the source's accrued interest if and only if the target's installments paid ahead are charged as before |
| LoanLedger.OtherLoansStay | backend/handlers/loan.go:452-640 | a transfer leaves every other loan as it was |
| LoanLedger.TransferKeepsTheLedger | backend/handlers/loan.go:452-640 | accepted transfers keep a loan settled at most once and rows in order of effect |
| LoanAcceptance.RefusedExactlyWhen | backend/handlers/loan.go:452-590 | a transfer is accepted if and only if the rows of the two loans give no reason against it, and is otherwise refused for the first of them: same loan, no schedule, a transfer already out, nothing left, a schedule or terms in the way, no installment still owed after the date, or takeovers exceeding what the target released |
| LoanAcceptance.TransferKeepsFunded | backend/handlers/loan.go:574-585 | through every accepted transfer, what a loan has paid out for others never exceeds what it released |
| LoanAcceptance.DeleteKeepsFunded | backend/handlers/loan.go:716-798 | nor does it through an accepted deletion |
| LoanLedger.DeleteKeepsTheLedger | backend/handlers/loan.go:716-798 | so do accepted deletions |
| LoanLedger.DeleteUndoesTransfer | backend/handlers/loan.go:716-798 | deleting the transfer just made restores every row if and only if it did not open a schedule on a loan another transfer had already landed on |
| RuleMatching.EscapedIsLiteral | backend/internal/query/pattern.go:10-12 | an escaped pattern matches exactly itself under LIKE, whatever follows it |
| RuleMatching.WildcardSplits | backend/handlers/rule.go:509-519 | a leading wildcard tries the rest of the pattern at every position |
| RuleMatching.SqlMatchAgrees | backend/handlers/rule.go:509-519 | the SQL description predicate and the in-memory matcher agree on every description, pattern and match type |
| RuleMatching.PredicateAgrees | backend/handlers/rule.go:612-664 | the clauses a rule adds to a filter hold of a row exactly when the in-memory rule matcher fires on it, and an unknown match type does neither |
| RuleMatching.AppendRulePredicate | backend/handlers/rule.go:612-664 | the filter grows by exactly the clauses of the conditions that are set |
| RuleEngine.SequenceIsFirstMatch | backend/handlers/rule.go:445-493 | the sequence of UPDATEs gives each uncategorized row on an open account the actions of the first rule matching its original state, and changes nothing else |
| RuleEngine.ActIsActedOn | backend/handlers/rule.go:445-493 | applying a rule sets its category, and its payee if it names one, unites the tags, and appends its note after the row's own with one newline between; nothing else of the row changes |
| RuleEngine.RunIsApplied | backend/handlers/rule.go:425-502 | after the run every row is the first matching rule's actions field by field, or as it was |
| RuleEngine.SecondRunUpdatesNothing | backend/handlers/rule.go:425-502 | a second run updates no row |
| RuleEngine.UpdatedCountsMatched | backend/handlers/rule.go:486-501 | the answered count is the number of rows newly categorized |
| RuleEngine.PreviewCountsTheUpdate | backend/handlers/rule.go:353-396 | what previewing a rule counts is what applying it updates |
| RuleEngine.CreatingAgreesWithApplying | backend/handlers/transaction.go:688-716 | creating a transaction under the rules equals storing it bare and applying them if and only if the firing rule names no other payee than one given and adds no empty tag the row lacks |
| RuleEngine.TagUnionsAgree | backend/handlers/rule.go:770-793 | the in-memory tag union and the SQL one hold the same tags if and only if no new empty tag is added |
| RuleEngine.UnionTagsSpec | backend/handlers/rule.go:770-793 | the union keeps the row's own tags in order and adds each new non-empty one once |
| RuleEngine.UnionTagsLoop | backend/handlers/rule.go:770-793 | the seen-map loop computes that union |
| RuleEngine.RuleStore.ApplyRules | backend/handlers/rule.go:425-502 | after the loop of UPDATEs each row has the actions of the first rule matching it field by field, or is unchanged, and the answer is the number of rows newly categorized |
| SessionStore.Store.InsertSession | backend/handlers/auth.go:325-332 | a login's session row is written with its deadline, live |
| SessionStore.Store.InsertFirstToken | backend/handlers/auth.go:337-344 | a login's first refresh token starts its family |
| SessionStore.Store.RotateToken | backend/handlers/auth.go:349-374 | the rotation transaction spends the row, inserts its successor and points one at the other, or changes nothing when the row is already spent |
| SessionStore.Store.EndSession | backend/handlers/auth.go:414-421 | both halves of a session are revoked: every token of the family, then the row |
| SessionStore.Store.RevokeSessions | backend/handlers/session.go:199-257 | a session is revoked by the call if and only if it is the user's own, live, unexpired and not the spared one; exactly those sessions' families are then revoked; every other row and token is unchanged |
| SessionIsolation.StepLeavesOthersAlone | backend/handlers/session.go:110-257 | no step taken on behalf of one user alters a session row or a token of another |
| SessionIsolation.RunLeavesTheIdleAlone | backend/handlers/session.go:110-257 | over any run, the rows and tokens of a user on whose behalf nothing runs stay as they are |
| SessionClock.MintedTokensAreShort | backend/auth/auth.go:27-35 | only a login and a refresh mint; an access token lasts a quarter of an hour or up to the given deadline, to the second, and a login sets its session's deadline thirty days ahead |
| SessionClock.LastSeenFollowsTheClock | backend/handlers/auth.go:423-432 | over any run a session's last-seen time never goes back and is never ahead of the clock |
| SessionRequests.LoginSignsIn | backend/handlers/auth.go:325-344 | a login run to its end leaves a live thirty-day session of the user with one live refresh token and an access token that is admitted, and nothing is admitted for it before its row is written |
| SessionRequests.RefreshRenews | backend/handlers/auth.go:349-374 | a refresh by a live token in time, run to its end, spends it for one live successor of the same session, user and deadline, mints one access token for the session and stamps its row |
| SessionRequests.ReplayEndsTheSession | backend/handlers/auth.go:450-566 | presenting a spent token revokes its whole family and its session row, and nothing else |
| SessionRequests.LogoutEndsTheSession | backend/handlers/auth.go:600-625 | a logout ends the session of the token it presents, and nothing else |
| SessionRequests.OwnerEndsTheSession | backend/handlers/session.go:110-158 | the owner ends a session by its id, and nothing else; nobody else can |
| SessionInvariants.StepKeeps | backend/handlers/auth.go:232-576 | every step of every interleaving keeps the protocol invariant: fresh identifiers, rows tied to their logins, tokens in one chain per family |
| SessionTheorems.OnlyTheTailIsLive | backend/handlers/auth.go:349-374 | in every reachable state a family's tokens form one replaced-by chain and only its last may still be live |
| SessionTheorems.RotatesAtMostOnce | backend/handlers/auth.go:349-362 | once a token has been rotated no later step rotates it again; whoever tries is sent to end the session |
| SessionTheorems.DeadStaysDead | backend/handlers/auth.go:379-385 | a family without a live token never has one again, over any run |
| SessionTheorems.ConvictionEndsTheSession | backend/handlers/auth.go:414-576 | a request that holds a spent token, wherever it is between parsing and rotating it, or is a logout leaves, once finished, the family dead, the row revoked and every access token refused, whatever runs beside it |
| SessionTheorems.RaceLoserEndsTheSession | backend/handlers/auth.go:450-566 | of two refreshes holding one token, when one rotates it the other, from whichever statement it had reached, has ended the session for both, for ever, once it finishes |
| SessionTheorems.NothingOutlivesTheLogin | backend/auth/auth.go:112-215 | no access token, refresh token or row outlasts the deadline its login set, and after it nothing is admitted or refreshed |
| SessionTheorems.RevokedForEver | backend/auth/auth.go:323-341 | once a session row is revoked no access token naming it is ever admitted |
| SessionTheorems.OnlyOvertakingSplitsASession | backend/handlers/session.go:110-257 | without faults, a step leaves a session with a live refresh token under a revoked row and no sweep pending if and only if its login stores a token under a revoked row or a revocation takes the row down over one |
| SessionTheorems.FamilyAlwaysTakesRow | backend/handlers/auth.go:414-421 | without faults, a dead family always has its row revoked or a request about to revoke it |
| SessionTheorems.HalvesAgree | backend/handlers/auth.go:400-421 | after a fault-free run in which no revocation reads or writes the session while its login is under way, and with no request left, a started session's row is revoked exactly when no refresh token of it is live |
| SessionTheorems.EveryCrossingCanSplit | backend/handlers/session.go:110-257 | conversely, from any reachable state the first revocation to cross a login needs one more statement, and the login its last, to leave a live refresh token under a revoked row |
| SessionTheorems.OvertakenLoginStaysHalfAlive | backend/handlers/auth.go:298-308 | a concrete fault-free run (login overtaken by a bulk revocation) that ends with a spendable refresh token under a revoked row |
| BillingTheorems.TwoMonthsFixTheDay | backend/handlers/billing_cycle.go:290-312 | two billing days giving the same dates in two consecutive months are equal |
| BillingTheorems.CyclesTile | backend/handlers/billing_cycle.go:370-374 | cycles of one billing day are non-empty, adjacent and disjoint |
| BillingTheorems.RealignedExactlyWhen | backend/handlers/billing_cycle.go:167-331 | after a run all cycles are those of the current day if and only if there were none, the day is unchanged or some end date is misaligned |
| BillingTheorems.RunsStaySettled | backend/handlers/billing_cycle.go:167-283 | from a settled book a run leaves exactly the current day's cycles, creates at most 600, and is settled again when the earliest transaction is not after today |
| BillingTheorems.CyclesLeft | backend/handlers/billing_cycle.go:348-374 | every cycle a run leaves goes from the day after one billing date to the next, the day clamped to the month; one that it adds has begun by today, ends no sooner than the month before the earliest transaction's, and lies within 600 months |
| BillingTheorems.EveryBookIsSettled | backend/handlers/billing_cycle.go:153-283 | so in every state along any history of edits, billing-day changes and runs, of this account and of others, all cycles of the account are of the day of its latest run, one a month |
| BillingTheorems.LoneCycleKeepsItsOldStart | backend/handlers/billing_cycle.go:290-317 | a concrete account with only a later transaction whose single cycle keeps the old day's start |
| BillingTheorems.AttachesExactlyTheHeld | backend/handlers/billing_cycle.go:265-283 | an undetached unassigned row ends attached to a cycle of its account holding its date if and only if there is one |
| BillingTheorems.UserChoicesStay | backend/handlers/billing_cycle.go:265-331 | a detached row without a cycle is never touched, and assignments survive every run that finds the cycles aligned |
| BillingTheorems.DropForgetsOnlyAttachedRows | backend/handlers/billing_cycle.go:317-330 | dropping cycles clears the detached mark of exactly the rows attached to one of them |
| BillingTheorems.EveryPastDateIsHeld | backend/handlers/billing_cycle.go:348-364 | after a run every date from the earliest transaction to today is in exactly one cycle, down to the 600-month floor |
| BillingTheorems.OtherAccountsStay | backend/handlers/billing_cycle.go:167-331 | a run moves no cycle and no row of another account |
| BillingTheorems.SecondRunChangesNothing | backend/handlers/billing_cycle.go:153-283 | a second run on the same day changes nothing, whatever the book |
| BillingCycles.BillingCycleMonths | backend/handlers/billing_cycle.go:348-364 | the loop lists the months from one before the earliest transaction to the cycle containing today, the newest 600 at most |
| BillingCycles.Ledger.DropMisalignedCycles | backend/handlers/billing_cycle.go:290-331 | the scan and the two statements drop and detach exactly when some end date is off the billing day |
| BillingCycles.Ledger.EnsureBillingCycles | backend/handlers/billing_cycle.go:167-283 | the run with its short cuts has the effect of dropping, generating and back-filling in full |
| BillingTotals.ListBillingCycles | backend/handlers/billing_cycle.go:382-416 | each cycle is listed once, oldest first; its net is the debits less the credits attached to it, its count their number, and its running total the debits less the credits of all rows attached to cycles starting no later |
| BillingTotals.LastTotalCountsEveryRow | backend/handlers/billing_cycle.go:376-416 | the newest running total counts every row attached to any of the account's cycles |
| RecurringSchedule.OccurrencesIncrease | backend/handlers/recurring.go:145-172 | occurrences strictly increase |
| RecurringSchedule.NoDayDrift | backend/handlers/recurring.go:140-155 | a monthly or yearly occurrence falls on the anchor's day wherever its month has one, else on the month's last day |
| RecurringSchedule.OccurrencesAreIntervals | backend/handlers/recurring.go:159-172 | the first occurrence is the start date, and each is one interval after the one before: so many days, seven times as many days, so many months or twelve times as many |
| Calendar.YearStart | backend/handlers/transaction_summary.go:473-475 | a year has 365 days and every fourth 366, but for three centuries in four |
| RecurringSchedule.Upcoming | backend/handlers/recurring.go:176-203 | the loop returns exactly the first count occurrences in [from, end) within the step bound; they stand one interval apart and begin with the start date unless that is past |
| RecurringSchedule.FirstDueIsUnique | backend/handlers/recurring.go:174-203 | there is only one such list |
| RecurringSchedule.NearestOccurrence | backend/handlers/recurring.go:240-272 | despite its early exit the search returns the earliest of the closest occurrences before the exclusive end within the bound |
| RecurringSchedule.MatchedOccurrences | backend/handlers/recurring.go:1489-1499 | each attached payment marks at most the one occurrence nearest it, within the window |
| RecurringTerms.OverlappingShareADay | backend/handlers/recurring.go:580-588 | the overlap test holds of two non-empty ranges if and only if some day lies in both |
| RecurringTerms.TermContaining | backend/handlers/recurring.go:402-414 | the loop finds the term in force on a day, or none in a gap |
| RecurringTerms.TermAt | backend/handlers/recurring.go:420-440 | the display resolver picks the current term, the one in force when there is one |
| RecurringTerms.PrimaryRange | backend/handlers/recurring.go:593-606 | the create path picks the current range |
| RecurringTerms.ResolversAgree | backend/handlers/recurring.go:623-631 | on well-formed terms the list query's ordering and the two resolvers pick the same term |
| RecurringTerms.LastEndIsLatest | backend/handlers/recurring.go:345-355 | the last loaded term's end is the series' end as the list query computes it |
| RecurringEdits.TermTable.ApplyChange | backend/handlers/recurring.go:478-536 | a change keeps the terms well-formed and alters what is in force only on the term starting at the date, or from the date to the next start; a refused account rolls it back |
| RecurringEdits.TermTable.CreateTerm | backend/handlers/recurring.go:1096-1172 | a range is accepted if and only if it is sound, owned and shares no day with a term, and then changes just its own days |
| RecurringEdits.TermTable.UpdateTerm | backend/handlers/recurring.go:1195-1307 | an edit is accepted if and only if the merged range is sound, owned and clear of the others, and then changes just the old and new days |
| RecurringEdits.TermTable.DeleteTerm | backend/handlers/recurring.go:1311-1377 | a delete is accepted if and only if the term exists and is not the last, and then just its days fall out of force |
| RecurringEdits.TermTable.ReplaceRanges | backend/handlers/recurring.go:956-988 | replacing the list is all or nothing, and afterwards exactly the supplied ranges are in force |
| RecurringEdits.ParseRanges | backend/handlers/recurring.go:548-576 | a list is accepted if and only if it is non-empty with positive amounts, non-empty ranges and no overlap, and comes back sorted |
| RecurringEdits.RacingCreates | backend/handlers/recurring.go:1090-1172 | two creates that both read the same terms leave them well-formed if and only if the ranges share no day or share their start |
| RecurringSuggestions.SuggestionPage | backend/handlers/recurring.go:1668-1705 | the page respects its limit, never repeats an occurrence and shows every candidate's occurrence when it has room; its first entries are of different ranges, each the best of its range whose occurrence was still free, and a range is missing only when they fill the page or have taken every occurrence it could show; every later entry is the best of its occurrence and ranks before whatever is left out |
| BackupTheorems.EveryReferenceResolves | backend/handlers/backup.go:514-985 | for any bundle whose rows are built, so for every accepted one, each reference of every table names a row of an earlier stage or one the target had, and a transaction's cycle belongs to its own account |
| BackupAcceptance.AcceptedExactlyWhen | backend/handlers/backup.go:514-987 | a well-formed bundle is accepted if and only if the ledger is empty, the server has its account types, no payee name made up by the merge clashes or is taken, and the bundle's own rows keep the tables' unique indexes, checks and the loan trigger; otherwise the inserts refuse it whole |
| BackupAcceptance.MadeUpNameRefusesTheBundle | backend/handlers/backup.go:1157-1209 | a well-formed bundle with a made-up payee name already taken, which the insert refuses |
| BackupRenaming.RestoreKeepsTheReferences | backend/handlers/backup.go:514-985 | an accepted well-formed bundle is restored with no row lost and the renaming commutes with every reference of accounts, payees, cycles, transactions, links, loan rows, recurring rows and rules |
| BackupRenaming.RenamingIsOneToOne | backend/handlers/backup.go:494-520 | the renaming is one to one on accounts, cycles, transactions and series, and every link has a fresh identifier of its own |
| BackupTheorems.EveryPayeeIsMapped | backend/handlers/backup.go:645-676 | every payee of the bundle, folded or not, has a row to answer to |
| BackupTheorems.OneDefault | backend/handlers/backup.go:538-562 | exactly the first account marked default in the bundle is restored as default |
| BackupTheorems.CategoriesFiled | backend/handlers/backup.go:581-636 | every restored category is filed under an inserted group or one the target had, the fallback included |
| BackupMeaning.CategoriesKeepTheirMeaning | backend/handlers/backup.go:563-636 | what refers to a bundle category afterwards refers to a category of its name, the target's own when it has one, under the group of its group's name, or under Imported when neither side knows the group |
| BackupMeaning.NothingMadeUp | backend/handlers/backup.go:581-636 | a category is inserted only for a bundle category the target lacks, and the only group added is one named Imported, at most once |
| BackupMeaning.PayeesKeepTheirMeaning | backend/handlers/backup.go:645-676 | what refers to a bundle payee afterwards refers to one of its name and, when it was linked, of its account; of several linked payees of one name all but the first are told apart by their identifier |
| BackupPayees.NobodyIsLost | backend/handlers/backup.go:1162-1196 | each payee is kept under its id or folded into a kept one of its name, and an account-linked one is never folded |
| BackupPayees.MergedNamesAreUniqueExactlyWhen | backend/handlers/backup.go:1162-1209 | the merged payees have distinct names if and only if no made-up name is a bundle name or made up twice |
| BackupPayees.MadeUpNameCanBeTaken | backend/handlers/backup.go:1197-1209 | a concrete bundle whose made-up name is already taken |
| BackupPayees.MergeBackupPayees | backend/handlers/backup.go:1162-1196 | the two loops compute that merge |
| BackupRun.RestoreUserBackup | backend/handlers/backup.go:514-987 | the staged loops and the inserts restore exactly the rows the theorems are about, or refuse the whole bundle |

## Left out

- Rounding of float64 and overflow of int64: interest and installments use exact real arithmetic before the one rounding the program asks for.
- Display data: names, colours, icons and labels, beyond what ordering and keys need.
- The headline totals, currency scope and per-type link summary of the money-flow response: single folds.
- HTTP handlers, request binding, cookies, logging, configuration, migrations and SQL text.
- Signing of tokens, password hashing and collisions of random identifiers: tokens and rows are opaque fresh values with an expiry.
- Clock readings between two statements of one handler that only computes: minting the access and the refresh token of one refresh is one step.
- A refresh whose account has been deleted, or whose deadline passes before it mints: it ends like any abandoned request.
- Registration: it starts a session as login does.
- Calendar validation of recurring and backup dates: a date that does not parse is the malformed-row case of a restore, and recurring requests arrive with their dates parsed.
- The merge of omitted fields in the series update (`recurring.go:837-1000`) around the change of amount or account, which is modelled, and around the replacement of the ranges, which is modelled.
- Scores of recurring suggestions and the query that selects candidates: the page is built from any scored candidates.
- Warnings and counters of a restore, and settings.
- Column types in the inserts of a restore (text length, integer width): a row's own CHECKs are one Boolean of the row.
- What the export writes is described by a predicate on bundles, not by the export queries.
- Rule SQL is a list of clauses with their meaning on a row; the text and placeholder numbers of the statement are not modelled.
- LoadDetail: reads tables given as sequences; the order of payments and transfers is the order of their queries.
- TransferBalance: the validations of the target account's type and openness are one Boolean of the request.
