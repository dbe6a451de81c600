# A verified model of the bank-statement ledger

A household uploads statements of its bank account and credit cards, or lets a scraper fetch
them. The ledger engine reads the rows, checks the printed balances, drops the lines it already
has, derives the account's balance, gives every row one financial meaning, keeps the income and
expense tables in agreement with those meanings, and offers the fixed monthly payments the rows
prove. This project models that engine in Dafny 4.11 and proves what it keeps.

`dafny verify dfyconfig.toml` checks everything.

## How the model is laid out

| Area | Files |
| --- | --- |
| Shared vocabulary | `Common`, `Calendar`, `BankRows`, `Grouping` |
| What a row means | `TransferPairing`, `CreditCoverage`, `DecisionPolicy` |
| The resolver and its tables | `LinkedTable`, `Books`, `Resolver`, `ResolverTheorems`, `Fixpoint`, `Foreseen`, `MoneyCheck`, `ScriptFailures`, `TransferMoney` |
| Every operation, every run | `Operations`, `LedgerRuns`, `Restoration`, `FaithfulRuns`, `ReconciliationService` |
| One statement | `BalanceReplay`, `FaultLocalisation`, `MisreadBalance`, `DailyBalance`, `MoneyBuckets`, `MonthlyConditions` |
| Many statements | `CounterDedup`, `Account`, `AccountView`, `LedgerTheorem`, `StatementClosing`, `BankService`, `CreditImport` |
| Fixed payments | `MonthlyRuns`, `Commitments`, `LoanSeries`, `ImportPreview`, `PreviewTheorem`, `Detection`, `StaleKinds` |
| Syncing and limiting | `SyncWindows`, `SyncProtocol`, `RateLimiter` |

Money is whole agorot, so a comparison within half an agora is equality and the balance tolerance
of 0.011 is one agora. Dates are day numbers; the civil calendar enters where months do. Wording
(the Hebrew patterns, category rules, names) is a parameter: a function of the description. A
database table is a sequence or a map in a class field, and each operation runs alone, except in
`SyncProtocol`, whose subject is interleaving. The order in which the database returns rows is
the order of the sequence.

The methods of `Service`, `BankAccount`, `Statements` and `Limiter` update their fields in place
and are proved equal to functions of the old state; the theorems are about those functions.

### The resolver

One income link and one expense link per row make two linked tables with the same life: a
decision leaves a link, releases it with its record, or owns one, creating or correcting the
record. `LinkedTable` proves once what a run of such decisions does to links, owned records and
everybody else's records; `Books` shows that applying a decision is one step on each table, so
the two tables can be followed apart although the service interleaves them. From there: after a
pass every row is resolved and owns exactly the record its meaning calls for; records of other
rows, of no row, and of rows set aside by hand are untouched; a second pass is silent; the
meanings depend on the rows, kinds, exclusions, confirmed credit rows and rules alone, and the
linked amounts on these and on the records linked before; and the structural checks of the
repository's own money script hold after every run of every operation.

### Where the code falls short of its description

* `applyTarget` corrects an expense's amount but never an income's, and never replaces a link
  whose record is gone. The two sums of the money script therefore hold exactly when, in the
  tables before the pass, the drifts of linked incomes cancel and twice the refunded early-payoff
  fees cancel what missing expenses should say (`ScriptAfterPass`); on runs where nobody deletes
  a linked record or rewrites a linked income's amount elsewhere they hold exactly when no such
  fee came back in the credit column (`AnyFaithfulRunPassesIff`). `EditedIncomeFails`,
  `DeletedExpenseFails` and `RefundedFeeFails` are the smallest instances. For the same reason a
  row's linked amount can remember its history (`HistoryIndependence`, `EditedIncomeIsRemembered`).
* Pairing transfers looks past what the user set aside, so a transfer with one leg set aside
  takes its other leg out of the figures (`HeldOutNetsToSetAside`, `OneLegSetAsideUnbalances`).
* The money script's last check, against double counting with credit cards, ends in a
  comparison that is always true; it holds in every state.
* The backfill query excludes one value of a nullable column; whether a database returns null
  rows for it is not settled by the source. `nullsSeen` covers both readings: one pass is enough
  exactly when they are seen or already current (`OnePassSufficesIff`), two always are.
* The import preview compares descriptions as they are, the import compares them trimmed. The
  two agree exactly when padding in hand-typed rows hides no duplicate (`PreviewMatchesIff`);
  `PaddingOffersTwice` is an instance where they do not.
* A row typed by hand is stored as an ordinary line whatever its wording, and an import that
  brings a row reclassifies it wherever the backfill visits it. What the preview detects is what is detected afterwards
  exactly when that changes nothing detection reads (`PreviewEqualsCommitIff`); in
  `TypedRepaymentsAppear` a loan is found that was never shown.
* The cleanup of interrupted syncs is not awaited after the server starts listening. It keeps
  final statuses final exactly when no run is under way as it happens (`SweepIsSafeIff`);
  `CleanupCanOvertakeARun` is a run it marks failed that later reports success.
* When creating a sync row fails, the connection stays claimed until a restart
  (`FailedCreationBlocks`). When the write that ends a run fails, its row looks busy until a
  restart, and no start of the connection gets past it (`FailedFinishBlocks`).
* The rate limiter lets a bucket's first request in whatever its limit, so a limit of zero acts
  as one. Around the turn of a window a key gets in fewer than twice the limit, and one less than
  twice does happen (`FewerThanTwiceTheLimit`, `NearlyTwiceTheLimitHappens`).
* Confirming more credit statements turns a settled card bill back into counted spend exactly
  when they bring the card its first charge dates, none of them near the bill, whose month was
  itemized without one (`MoreStatementsOnlySettle`; `LaterStatementUnsettles` is an instance).

## Model

| member | source | states |
|---|---|---|
| TransferPairing.PairLegs | backend/src/modules/bank/reconciliation.service.ts:209-227 | the nested scan computes the pairing the theorems are about, and the deposits it took |
| TransferPairing.PairsAreGreedyMatching | backend/src/modules/bank/reconciliation.service.ts:203-228 | the pairs are one-to-one, of equal amount, opposite sides and at most seven days apart; each takes the nearest free deposit, the earliest on a tie; no two compatible legs are both left over |
| TransferPairing.AtLeastHalfOfAnyMatching | backend/src/modules/bank/reconciliation.service.ts:209-227 | no valid matching has more than twice as many pairs |
| TransferPairing.HeldSidesBalance | backend/src/modules/bank/reconciliation.service.ts:209-227 | the legs taken as paid out and those taken as come back have equal sums |
| Calendar.OrderIsLexicographic | backend/src/modules/bank/statementCommitments.detector.ts:26-33 | day numbers order dates exactly as month and day do |
| Calendar.DateOfDayNumber | backend/src/modules/bank/statementCommitments.detector.ts:44-55 | the calendar date of a date's day number is that date |
| CreditCoverage.BuildCreditCoverage | backend/src/modules/bank/creditCoverage.service.ts:86-112 | the loop over confirmed credit rows builds the coverage the verdicts are read from |
| CreditCoverage.LabelIsFirst | backend/src/modules/bank/creditCoverage.service.ts:93-104 | a card's shown name is that of its first row |
| CreditCoverage.VerdictIsCoverage | backend/src/modules/bank/creditCoverage.service.ts:118-171 | a bill is covered exactly when its card was charged within five days, or, with no charge date at all, is itemized in the bill's month; a bill naming no card, exactly when some card was charged within three days |
| CreditCoverage.MoreRowsKeepCover | backend/src/modules/bank/creditCoverage.service.ts:129-144 | more confirmed rows uncover a bill exactly when they bring its card its first charge dates, none near the bill, and the month itemized it |
| CreditCoverage.LaterChargeUncovers | backend/src/modules/bank/creditCoverage.service.ts:129-144 | a card itemized on day 10 without a charge date covers a bill of that day; one more row, charged on day 100, uncovers it |
| DecisionPolicy.PolicyIsConsistent | backend/src/modules/bank/reconciliation.service.ts:901-1030 | a record exactly where the resolution says, income only from the credit column, negative records only for money given back on credit, never the hand-set meaning, whatever the wording |
| DecisionPolicy.FindInternalTransferIds | backend/src/modules/bank/reconciliation.service.ts:203-228 | the ids held are exactly those of the legs of the pairing |
| DecisionPolicy.FindAtypicalDepositIds | backend/src/modules/bank/reconciliation.service.ts:237-246 | the ids flagged are exactly those of the atypical candidates, none below three candidates |
| DecisionPolicy.MedianSplits | backend/src/modules/bank/reconciliation.service.ts:241-242 | the median is at most a bound exactly when more than half the amounts are |
| DecisionPolicy.AtypicalMeansTenfold | backend/src/modules/bank/reconciliation.service.ts:235-245 | a deposit is flagged exactly when it is at least ten times most of the others and most of them are not nothing |
| LinkedTable.StaysSound | backend/src/modules/bank/reconciliation.service.ts:1041-1101 | over any run of decisions no record is linked twice and every linked id was handed out |
| LinkedTable.LinkAfter | backend/src/modules/bank/reconciliation.service.ts:1041-1101 | what link a row ends with, in terms of its own decision alone |
| LinkedTable.UnownedStays | backend/src/modules/bank/reconciliation.service.ts:1041-1101 | a record no row links is neither removed nor changed |
| LinkedTable.OwnedAfter | backend/src/modules/bank/reconciliation.service.ts:1041-1101 | a linked record is removed or corrected by its own row's decision and by no other |
| LinkedTable.GainedAfter | backend/src/modules/bank/reconciliation.service.ts:1054-1082 | a row that gains a link gains a new record, made for it |
| LinkedTable.IdleIffAsked | backend/src/modules/bank/reconciliation.service.ts:1037-1101 | a decision leaves a table as it is exactly when the table already is as it asks |
| Books.AppliedDesks | backend/src/modules/bank/reconciliation.service.ts:1037-1127 | applying a decision is one step on the income table and one on the expense table, independently |
| Books.AppliedIsIdentityIffSettled | backend/src/modules/bank/reconciliation.service.ts:1103-1126 | applying a decision changes nothing exactly when row and records already agree with it |
| Resolver.DesksAfter | backend/src/modules/bank/reconciliation.service.ts:403-421 | the tables after a prefix of the resolve loop are the linked-table runs of that prefix |
| ResolverTheorems.PassRow | backend/src/modules/bank/reconciliation.service.ts:403-421 | after a pass a row set aside by hand is as it was and any other is its reclassified self stamped with the decision for it |
| ResolverTheorems.EveryRowIsResolved | backend/src/modules/bank/reconciliation.service.ts:363-433 | after a pass every row has a meaning, an income link exactly when it is income, an expense link exactly when its meaning is expense-like |
| ResolverTheorems.PassKeepsWellLinked | backend/src/modules/bank/reconciliation.service.ts:363-433 | links stay injective, ids distinct and handed out, rows set aside stay without records |
| ResolverTheorems.OwnedIncomeAfter | backend/src/modules/bank/reconciliation.service.ts:1054-1067 | an income row owns the record it had, unchanged, or a new one stating the row's amount, day, text and guessed kind |
| ResolverTheorems.OwnedExpenseAfter | backend/src/modules/bank/reconciliation.service.ts:1068-1101 | an expense-like row's record carries exactly the signed amount its meaning calls for; a category chosen before stays |
| ResolverTheorems.WholeExpenseAfter | backend/src/modules/bank/reconciliation.service.ts:1068-1101 | a new expense states the row in full, its category the one its meaning calls for; an old one keeps everything but its amount and a category never filled |
| ResolverTheorems.StaleRecordsGo | backend/src/modules/bank/reconciliation.service.ts:1041-1051 | a record its row no longer calls for is deleted |
| ResolverTheorems.BystandersStay | backend/src/modules/bank/reconciliation.service.ts:363-433 | records of no row, and of rows set aside, are neither removed nor changed, and none appear but for rows that gained one |
| ResolverTheorems.DecisionsDependOnInputs | backend/src/modules/bank/reconciliation.service.ts:394-416 | decisions depend on the rows' facts, kinds and exclusions alone |
| Fixpoint.ChangeIsCounted | backend/src/modules/bank/reconciliation.service.ts:418-419 | a decision is counted as a change exactly when it changes the tables |
| Fixpoint.SecondPassIsSilent | backend/src/modules/bank/reconciliation.service.ts:358-363 | with line kinds current, a further pass changes nothing and reports no change |
| Fixpoint.OnePassSufficesIff | backend/src/modules/bank/reconciliation.service.ts:341-356 | one pass reaches the fixpoint exactly when null resolutions are seen by the backfill or their kinds are current |
| Fixpoint.TwoPassesSuffice | backend/src/database/resolveBank.script.ts:2-4 | after two passes a further pass changes nothing and reports zero, however nulls are treated |
| Foreseen.HistoryIndependence | backend/src/modules/bank/reconciliation.service.ts:394-421 | two consistent states with the same inputs reach the same resolution, status and note for every row, and the same linked amount exactly where they start from the same: an income row from the same linked amount or its own, an expense row from a record that is there, or gone, in both |
| Foreseen.OwnedIsForeseen | backend/src/modules/bank/reconciliation.service.ts:1041-1101 | what each row owns after a pass, told from the tables before it and the decision about it alone |
| Foreseen.EditedIncomeIsRemembered | backend/src/modules/bank/reconciliation.service.ts:1054-1067 | an income edited by hand from 500 to 400 stays, where the same row never linked ends with 500 |
| MoneyCheck.AggregateIsLinkByLink | backend/src/database/verifyMoney.script.ts:108-121 | with no record linked twice, the sum over linked ids is the sum link by link |
| MoneyCheck.IncomeConservation | backend/src/database/verifyMoney.script.ts:111-126 | after a pass the linked incomes sum to the income bucket plus the drifts, each told from the tables before the pass: what a linked income said beyond its row, less what a missing one should have said |
| MoneyCheck.ExpenseConservation | backend/src/database/verifyMoney.script.ts:128-148 | after a pass the linked expenses sum to the expense buckets, less twice the early-payoff fees standing in the credit column, less what the expenses already missing before the pass should say |
| MoneyCheck.ScriptAfterPass | backend/src/database/verifyMoney.script.ts:43-148 | after any pass eight checks hold; the two sums hold exactly when, in the tables before it, the drifts of linked incomes cancel, and twice the refunded fees and the missing expenses do |
| MoneyCheck.ScriptPassesIff | backend/src/database/verifyMoney.script.ts:43-148 | on live links, true incomes and positive amounts all ten checks hold exactly when no early-payoff fee stands in the credit column |
| ScriptFailures.EditedIncomeFails | backend/src/database/verifyMoney.script.ts:111-126 | one income edited from 500 to 400: the income check fails, off by 100 |
| ScriptFailures.DeletedExpenseFails | backend/src/database/verifyMoney.script.ts:128-148 | one linked expense of 90 deleted elsewhere: the expense check fails, off by 90 |
| ScriptFailures.RefundedFeeFails | backend/src/database/verifyMoney.script.ts:128-148 | one early-payoff fee of 148 refunded: the expense check fails, off by twice 148 |
| TransferMoney.HeldOutNetsToSetAside | backend/src/modules/bank/reconciliation.service.ts:1001-1009 | after a pass, internal transfers in less out are the opposite of the same difference over the paired legs the user had set aside: zero exactly when those balance on their own |
| TransferMoney.HoldingLeavesTheNet | backend/src/modules/bank/reconciliation.service.ts:1001-1030 | income less spending after a pass is what all ordinary rows net to, transfers included, plus what the user had set aside among the paired legs |
| TransferMoney.OneLegSetAsideUnbalances | backend/src/modules/bank/reconciliation.service.ts:203-228 | one leg set aside by hand and the other still held: what is held out nets to 300 |
| Operations.ReleaseKeepsLive | backend/src/modules/bank/reconciliation.service.ts:820-869 | letting go of one row's records breaks no other row's link or amount |
| LedgerRuns.StepKeepsWellLinked | backend/src/modules/bank/reconciliation.service.ts:699-869 | every operation, hand edits and deletions elsewhere included, keeps links injective and ids fresh, whatever the rules in force |
| LedgerRuns.AnyRunThenResolveAgrees | backend/src/modules/bank/reconciliation.service.ts:363-433 | after any run of operations, each under its own rules, one pass leaves every row resolved with exactly the right records and the structural checks passing |
| LedgerRuns.LinkingCanLeaveTwoLinks | backend/src/modules/bank/reconciliation.service.ts:699-723 | refunded interest, resolved and then promoted to income, carries an income and an expense until the next pass leaves it one |
| Restoration.ExcludeThenResetRestores | backend/src/modules/bank/reconciliation.service.ts:820-869 | excluding a row and resetting it restores every meaning and every other row's linked amount; its own comes back exactly when its record was there and, for an income, said the row's amount |
| Restoration.ExcludeThenResetRequests | backend/src/modules/bank/reconciliation.service.ts:820-869 | the same for the two requests, the second of which succeeds |
| Restoration.DetourLeavesNoTrace | backend/src/modules/bank/reconciliation.service.ts:394-421 | a pass under other credit statements leaves no trace once a pass under the first ones has run, except exactly the linked amount of a bill whose deleted expense it made good on the way |
| Restoration.ConfirmThenRemoveRestores | backend/src/modules/credit/credit.service.ts:221-243 | confirming a credit statement and removing it, both granted, restores every meaning and, with exactly that exception, every linked amount |
| Restoration.MoreStatementsOnlySettle | backend/src/modules/bank/reconciliation.service.ts:981-999 | more confirmed rows settle exactly the card bills they newly cover, un-settle exactly those whose card they bring its first charge dates, none near the bill, where its month was itemized without one, and change no other resolution |
| Restoration.LaterStatementUnsettles | backend/src/modules/bank/reconciliation.service.ts:981-999 | such a bill, settled by one statement and turned back into counted spend by a second |
| FaithfulRuns.RunsStayFaithful | backend/src/modules/bank/reconciliation.service.ts:699-869 | runs whose deletions name no record a row then links, and whose edits give no linked income an amount other than its row's, keep links and loans live and incomes true; a reset deletes a loan only with its last link |
| FaithfulRuns.StaysFaithfulIff | backend/src/modules/bank/reconciliation.service.ts:699-869 | that is exact step by step: from live links and true incomes any other operation leaves a link dangling, an income untrue or a row without money |
| FaithfulRuns.RollingBackStaysInside | backend/src/modules/documents/documents.service.ts:229-237 | rolling an import back is allowed: once a row is gone nobody links the records it owned |
| FaithfulRuns.AnyFaithfulRunPassesIff | backend/src/database/verifyMoney.script.ts:43-148 | after any such run and a pass the whole script passes exactly when no early-payoff fee stands in the credit column |
| ReconciliationService.Service.BackfillClassification | backend/src/modules/bank/reconciliation.service.ts:341-356 | rows are reclassified in place, and the count returned is the number of rows that changed |
| ReconciliationService.Service.SettleIncome | backend/src/modules/bank/reconciliation.service.ts:1041-1067 | the income side of one decision on the income table, and whether anything changed |
| ReconciliationService.Service.SettleExpense | backend/src/modules/bank/reconciliation.service.ts:1047-1101 | the expense side: deletion, creation, correction of the amount and of an empty category |
| ReconciliationService.Service.ApplyTarget | backend/src/modules/bank/reconciliation.service.ts:1037-1127 | the tables agree with the decision afterwards, and the answer is whether they changed |
| ReconciliationService.Service.ResolveAll | backend/src/modules/bank/reconciliation.service.ts:363-433 | the tables after the loop are the pass of the theorems; changed, buckets and unresolved are what the rows say |
| ReconciliationService.Service.LinkIncome | backend/src/modules/bank/reconciliation.service.ts:699-723 | a deposit without an income gets one; every refusal leaves the tables alone |
| ReconciliationService.Service.LinkExpense | backend/src/modules/bank/reconciliation.service.ts:730-756 | an ordinary withdrawal without an expense gets one; every refusal leaves the tables alone |
| ReconciliationService.Service.LinkLoan | backend/src/modules/bank/reconciliation.service.ts:763-813 | the chosen rows point at the named loan or at one opened for them with the terms given; no row is re-labelled |
| ReconciliationService.Service.Exclude | backend/src/modules/bank/reconciliation.service.ts:820-837 | the row is set aside and its records are gone |
| ReconciliationService.Service.Reset | backend/src/modules/bank/reconciliation.service.ts:843-869 | the row's records go, a loan with its last link, and a pass follows |
| ReconciliationService.Service.ConfirmImport | backend/src/modules/credit/credit.service.ts:221-233 | the statement is confirmed once and a pass follows |
| ReconciliationService.Service.RemoveImport | backend/src/modules/credit/credit.service.ts:235-243 | the statement's rows are gone and a pass follows |
| BalanceReplay.VerifyRollingBalance | backend/src/modules/bank/bankParser.service.ts:716-767 | opening, closing, mismatches and every row's mark are those of the replay, marked in place |
| BalanceReplay.ReplayConserves | backend/src/modules/bank/bankParser.service.ts:735-766 | closing minus opening is exactly the movements plus every reported difference |
| BalanceReplay.ToleranceNeverAccumulates | backend/src/modules/bank/bankParser.service.ts:704-766 | between two printed balances with no mismatch after the first, movements differ from the printed step by at most two agorot, however many rows apart |
| BalanceReplay.MarksAreEarned | backend/src/modules/bank/bankParser.service.ts:737-763 | a row marked printed or chain stands between printed balances the movements agree with, within two agorot; one marked mismatch, or left unverified before a printed balance, between balances they contradict |
| BalanceReplay.ClosingNearLastPrinted | backend/src/modules/bank/bankParser.service.ts:762-766 | the closing balance is the last printed one plus the tail, within one agora |
| FaultLocalisation.EachSegmentAnswersForItself | backend/src/modules/bank/bankParser.service.ts:737-763 | with true printed balances and any number of misread rows, a printed balance mismatches exactly when the rows since the previous printed one are wrong together, by exactly the opposite |
| FaultLocalisation.FirstPrintedMatches | backend/src/modules/bank/bankParser.service.ts:731-733 | faults up to the first printed balance are absorbed by the derived opening |
| FaultLocalisation.OneFaultOneReport | backend/src/modules/bank/bankParser.service.ts:711-767 | one misread row gives exactly one mismatch, at the first printed balance from it on, with the opposite difference; none when it lies before, nothing is printed after, or it is rounding |
| FaultLocalisation.FaithfulStatementReconciles | backend/src/modules/bank/bankParser.service.ts:716-767 | a statement read right replays with no mismatch and closes on the true balance |
| MisreadBalance.EachStepAnswersForItself | backend/src/modules/bank/bankParser.service.ts:737-763 | whatever was misread, movements or balances, a printed balance mismatches exactly when the movements since the previous printed one miss the step between the two, by exactly as much |
| MisreadBalance.OneMisreadBalance | backend/src/modules/bank/bankParser.service.ts:711-767 | one balance misread by more than rounding gives exactly two reports, its error there and the opposite at the next printed balance; the first printed one gives only the second, and an opening off by its error |
| DailyBalance.NormalizeDailyBalances | backend/src/modules/bank/bankParser.service.ts:1403-1425 | placeholders are dropped in place exactly when the statement does not reconcile, has the daily layout and reconciles without them |
| DailyBalance.DaysReconcile | backend/src/modules/bank/bankParser.service.ts:1419-1424 | in a normalised statement the movements between any two daily closes add up to the printed step within two agorot |
| MoneyBuckets.AnnotateRoundTrips | backend/src/modules/bank/bankParser.service.ts:486-522 | exactly the legs of the pairing are flagged in place, flags already set stay |
| MoneyBuckets.SummarizeMoney | backend/src/modules/bank/bankParser.service.ts:619-669 | every bucket is the sum of the rows it names |
| MoneyBuckets.BucketsCoverColumns | backend/src/modules/bank/bankParser.service.ts:630-653 | withdrawals split into spending, interest, principal and mixed; deposits into income, refunded interest and reversed repayments |
| MoneyBuckets.ConfirmedMeansUnflagged | backend/src/modules/bank/bankParser.service.ts:650-661 | after annotation both confirmed figures are the sums over unflagged rows, since pairs have equal amounts |
| MoneyBuckets.SummarizeMonthFinancing | backend/src/modules/bank/bankParser.service.ts:685-697 | the map filled by the loop is the interest of each month |
| MoneyBuckets.MonthIsItsRows | backend/src/modules/bank/bankParser.service.ts:685-697 | a month's figures are the sums over that month's interest rows alone, and a month appears exactly when it has one |
| MoneyBuckets.MonthsNetToStatement | backend/src/modules/bank/bankParser.service.ts:684-697 | the months' nets sum to the statement's net financing |
| MonthlyConditions.EvaluateMonthlyConditions | backend/src/modules/bank/bankParser.service.ts:558-616 | one verdict for each calendar month touched, in order, none for an empty statement |
| MonthlyConditions.MonthsShareTheSalary | backend/src/modules/bank/bankParser.service.ts:565-573 | every salary credit counts towards exactly one of the months judged |
| MonthlyConditions.DecidedMonthsStay | backend/src/modules/bank/bankParser.service.ts:579-601 | a month covered in full is decided, and a statement longer at either end repeats its verdict |
| CounterDedup.FilterNew | backend/src/modules/bank/bank.service.ts:164-174 | the decrementing counter lets through exactly the places past what is stored |
| CounterDedup.ImportIsMaxUnion | backend/src/modules/bank/bank.service.ts:164-174 | stored and added keys together hold, of each key, as many as the busier source |
| Account.ImportKeepsBusier | backend/src/modules/bank/bank.service.ts:152-240 | once an import and its resolve pass are through, the account holds, of every line, as many as the busier of what it had and the file |
| Account.ImportOnlyAppends | backend/src/modules/bank/bank.service.ts:197-240 | no stored row is lost by an import; each is as it was, or as the resolve pass leaves it when a row is new |
| AccountView.PassShows | backend/src/modules/bank/reconciliation.service.ts:341-433 | what a resolve pass does to the resolver's table is what the account theorems say it does to the account's rows |
| AccountView.PassBringsItsMeanings | backend/src/modules/bank/reconciliation.service.ts:403-421 | the meanings a pass leaves on the table are the ones it brings the account |
| LedgerTheorem.OrderAndRepeatsDoNotMatter | backend/src/modules/bank/bank.service.ts:124-128 | only which files were taken in matters, not their order nor how often |
| LedgerTheorem.ReuploadRestoresIff | backend/src/modules/bank/bank.service.ts:258-263 | removing a row and uploading its file again restores the line exactly when the file shows as many copies as there were |
| LedgerTheorem.StoredIsTheLedger | backend/src/modules/bank/bank.service.ts:152-226 | after any sequence of whole-day slices of one ledger the rows are exactly the ledger on the covered days |
| LedgerTheorem.AnchorIsNewest | backend/src/modules/bank/accountBalance.service.ts:48-80 | no eligible statement, nor the stated balance, is newer than the anchor chosen |
| LedgerTheorem.DerivedBalanceIsTrue | backend/src/modules/bank/accountBalance.service.ts:84-142 | from any such run the derived balance is the bank's balance on a day when every ledger day after the anchor up to it is covered and nothing past it counts yet |
| LedgerTheorem.AccumulatedBalanceIsTrue | backend/src/modules/bank/accountBalance.service.ts:93-110 | with no anchor at all the accumulated figure is true once everything is covered and the opening is |
| StatementClosing.FaithfulFileIsWholeDays | backend/src/modules/bank/bankParser.service.ts:716-767 | a file of whole days read right replays without mismatch and its closing balance is one the ledger theorem accepts |
| BankService.BankAccount.Anchored | backend/src/modules/bank/accountBalance.service.ts:48-80 | the scan finds the anchor of the theorems |
| BankService.BankAccount.Recompute | backend/src/modules/bank/accountBalance.service.ts:149-156 | the cached balance is the derived one |
| BankService.BankAccount.ImportStatement | backend/src/modules/bank/bank.service.ts:129-256 | the account becomes the import and resolve pass of the theorems, the report's counts add up, the cached balance is current; an empty file changes nothing |
| BankService.BankAccount.Resolve | backend/src/modules/bank/reconciliation.service.ts:341-433 | the rows after the pass: reclassified where the backfill visits, stamped with their meanings, those set aside untouched |
| BankService.BankAccount.CreateTransaction | backend/src/modules/bank/bank.service.ts:104-122 | one unclassified row is added and the cached balance is current |
| BankService.BankAccount.RemoveTransaction | backend/src/modules/bank/bank.service.ts:258-263 | exactly that row goes and the cached balance is current; an unknown id changes nothing |
| BankService.BankAccount.SetAnchor | backend/src/modules/bank/bank.service.ts:58-65 | the stated balance is recorded and the cached balance is current |
| CreditImport.Statements.CreateImport | backend/src/modules/credit/credit.service.ts:103-213 | an unknown card, the same bytes, an unassigned twin or nothing new change nothing; otherwise the new charges, or the rows the user staged, are added under one new import with its total |
| CreditImport.CardHoldsBusier | backend/src/modules/credit/credit.service.ts:129-151 | taken in for a card, the card holds of every charge as many as the busier of what it had and the file; the refusal of twins makes unassigned charges irrelevant |
| CreditImport.HouseholdHoldsBusier | backend/src/modules/credit/credit.service.ts:129-151 | taken in for no card, the same over all the user's charges |
| CreditImport.OtherCardsStay | backend/src/modules/credit/credit.service.ts:129-132 | other cards' charges are neither compared with nor touched |
| CreditImport.SameChargesAddNothing | backend/src/modules/credit/credit.service.ts:125-163 | the same charges in a file of other bytes add nothing |
| CreditImport.TotalsStayTrue | backend/src/modules/credit/credit.service.ts:170-190 | over any uploads each import's recorded total is the sum of the charges stored under it, revolving-credit financing left out |
| MonthlyRuns.FindNextMonthly | backend/src/modules/bank/statementCommitments.detector.ts:44-55 | the month-and-year loop ends and computes the next monthly date |
| MonthlyRuns.NextMonthlyIsLeast | backend/src/modules/bank/statementCommitments.detector.ts:44-55 | it is strictly later than its bound, is that day of some month clamped to the month, and no such date comes between |
| MonthlyRuns.DueTheMonthAfter | backend/src/modules/bank/statementCommitments.detector.ts:106-109 | after a payment the next is due in the very next month, however short |
| MonthlyRuns.SpreadDecides | backend/src/modules/bank/statementCommitments.detector.ts:73-75 | the highest against the lowest amount decides whether every two amounts agree within 1.15 |
| MonthlyRuns.LatestRun | backend/src/modules/bank/statementCommitments.detector.ts:67-81 | the backward loop with its three breaks computes the latest run |
| MonthlyRuns.LatestRunIsLongest | backend/src/modules/bank/statementCommitments.detector.ts:62-81 | a suffix has neighbours at most two months and four circular days apart and amounts within 1.15 exactly when it is no longer than the latest run |
| Grouping.GroupBy | backend/src/modules/bank/statementCommitments.detector.ts:112-121 | the map of arrays holds each key's rows in order, keys in order of appearance |
| Commitments.MonthlyOccurrences | backend/src/modules/bank/statementCommitments.detector.ts:88-104 | grouping, singles, median and picks compute the monthly occurrences, or nothing |
| Commitments.OneOccurrenceAMonth | backend/src/modules/bank/statementCommitments.detector.ts:83-104 | each month with a debit occurs once, in order, by a debit of that month none nearer the typical single amount; at most two debits a month on average |
| Commitments.OfferedIff | backend/src/modules/bank/statementCommitments.detector.ts:124-133 | a payee is offered exactly when it was debited in three months or more, its last two payments agree and the next is not overdue |
| Commitments.OfferIsNextDue | backend/src/modules/bank/statementCommitments.detector.ts:127-145 | an offer is priced by the last payment, counts the months of the longest latest run, and is dated by the first clamped date after the forecast's start |
| Commitments.DetectRecurring | backend/src/modules/bank/statementCommitments.detector.ts:111-148 | filter, grouping and the offers of each payee in order |
| Commitments.EveryOfferIsAhead | backend/src/modules/bank/statementCommitments.detector.ts:210-216 | every payment offered falls after both the statement's end and today, on the first such date |
| Commitments.OnePerPayee | backend/src/modules/bank/statementCommitments.detector.ts:124-147 | a payee is offered at most once |
| LoanSeries.GatherSeries | backend/src/modules/bank/statementCommitments.detector.ts:162-182 | the loop over payment days gathers the series of the theorems |
| LoanSeries.NumberedIff | backend/src/modules/bank/statementCommitments.detector.ts:173-174 | a payment day carries a loan's number exactly when its principal and mixed lines name that loan and no other |
| LoanSeries.SeriesAreLoans | backend/src/modules/bank/statementCommitments.detector.ts:170-182 | each series has one number and days within two of its first; no two series share a number and a near day, so no key is overwritten |
| LoanSeries.LoanPaymentsAreConserved | backend/src/modules/bank/statementCommitments.detector.ts:163-182 | every shekel of loan payments is in one instalment of one series or on a payoff day |
| Detection.DetectLoans | backend/src/modules/bank/statementCommitments.detector.ts:161-203 | the offers of the series in order |
| Detection.LoanOfferIsAhead | backend/src/modules/bank/statementCommitments.detector.ts:184-201 | a series is offered exactly when it has two months and has not stopped; then by its latest instalment and the first date after the forecast's start |
| Detection.EveryLoanIsAhead | backend/src/modules/bank/statementCommitments.detector.ts:210-216 | every loan offered is one of the series and due after both the statement's end and today |
| ImportPreview.MergeRows | backend/src/modules/bank/statementCommitments.service.ts:17-28 | stored debits first, then the incoming ones the stored do not account for |
| PreviewTheorem.PreviewMatchesIff | backend/src/modules/bank/statementCommitments.service.ts:69-81 | the debits shown before an import are, line by line, those stored once it and its resolve pass are through, exactly when padded stored descriptions hide no duplicate |
| PreviewTheorem.TrimmedHidesNothing | backend/src/modules/bank/bank.service.ts:162-163 | that holds whenever stored descriptions carry no padding |
| PreviewTheorem.PaddingOffersTwice | backend/src/modules/bank/statementCommitments.service.ts:18-25 | a hand-typed padded row is one line to the import and two to the preview |
| PreviewTheorem.PreviewEqualsCommitIff | backend/src/modules/bank/statementCommitments.service.ts:69-81 | then detection reads the same debits before the import and once it is through exactly when the import brings no row, or its backfill changes nothing detection reads of any stored row |
| PreviewTheorem.PassReadsTheSameIff | backend/src/modules/bank/reconciliation.service.ts:341-356 | a pass leaves what detection reads exactly when it leaves what is read of every single row |
| PreviewTheorem.CurrentRowsReadAlike | backend/src/modules/bank/reconciliation.service.ts:341-356 | stored debits of the kind their wording gives meet that condition |
| StaleKinds.TypedRepaymentsAppear | backend/src/modules/bank/bank.service.ts:104-122 | two loan repayments typed by hand and a statement of one deposit: no loan is shown before the import, one is found after it |
| PreviewTheorem.SameStatementDays | backend/src/modules/bank/statementCommitments.service.ts:78-80 | the days the statement end is taken from are the same before and after |
| Detection.OfferedBeforeIsFoundAfter | backend/src/modules/bank/statementCommitments.service.ts:69-81 | where an import brings no row or its backfill changes nothing read of a stored row, the recurring payments and loans shown before it are exactly those found once it is through, with the same statement end |
| SyncWindows.BankTakesIff | backend/src/modules/connections/connectionSync.service.ts:72-121 | a bank row is taken exactly when no file reaches its day and it is past the sync's own rows less three days, in the last ninety days of an empty account, or no earlier than a pending row |
| SyncWindows.CardTakesIff | backend/src/modules/connections/connectionSync.service.ts:72-121 | a card row is taken by its purchase day in the same way with fourteen days of overlap, and a later instalment also by its charge day, against charges files and syncs brought, or against their days while they brought none |
| SyncWindows.PendingIsTakenUnlessCovered | backend/src/modules/connections/connectionSync.service.ts:101-115 | a pending row falls inside the next window exactly when no file covers its day |
| SyncWindows.ScrapingStartsEarlyEnough | backend/src/modules/connections/connectionSync.service.ts:168-174 | a row a target would take is dated from the start of scraping on, at Israeli offsets of two or three hours; an instalment taken by its charge alone is charged from then on |
| SyncWindows.OldPurchasesAreDatedEarlier | backend/src/modules/connections/connectionSync.service.ts:168-174 | such an instalment can be dated before the start: a second one, 19 days before its charge |
| SyncWindows.UnknownAccountsLoseNothing | backend/src/modules/connections/connectionSync.service.ts:168-174 | nor for a login none of whose accounts is known |
| SyncWindows.PurchaseIsNoLater | backend/src/modules/connections/scrapeWorkbook.ts:32-48 | an instalment's purchase day is never after the row that bills it |
| SyncProtocol.AtMostOneInFlight | backend/src/modules/connections/connectionSync.service.ts:234-245 | in every interleaving a connection has at most one run in flight |
| SyncProtocol.FinishedIsNeverOverwritten | backend/src/modules/connections/connectionSync.service.ts:179-224 | the status a run finishes with is the row's status after any further steps |
| SyncProtocol.SettledForever | backend/src/modules/connections/connectionSync.service.ts:40-45 | no process, restart or cleanup touches a final row nobody is writing |
| SyncProtocol.SweepIsSafeIff | backend/src/modules/connections/connectionSync.service.ts:247-254 | the cleanup keeps final statuses final exactly when no run is under way |
| SyncProtocol.QuietSweepsKeepFinal | backend/src/modules/connections/connectionSync.service.ts:247-254 | over any run whose cleanups come when no run is under way, every final row has ended for good |
| SyncProtocol.CleanupCanOvertakeARun | backend/src/server.ts:6-9 | a sync started before the cleanup is marked failed, then reports success |
| SyncProtocol.AfterRestartNothingDangles | backend/src/modules/connections/connectionSync.service.ts:247-254 | after a restart and its cleanup a row looks alive exactly while a run may write it, and a claim lasts as long as its run |
| SyncProtocol.RefusedOnlyWhileInFlight | backend/src/modules/connections/connectionSync.service.ts:236-238 | over the same runs a start is refused, at its look or at its claim, exactly while a run of its connection is in flight |
| SyncProtocol.FailedFinishBlocks | backend/src/modules/connections/connectionSync.service.ts:179-237 | when the write that ends a run fails, its row stays busy with no run behind it, and every later start is turned away until a restart's cleanup marks the row failed |
| SyncProtocol.FailedCreationBlocks | backend/src/modules/connections/connectionSync.service.ts:239-240 | a failed creation leaves the connection claimed, and no row of it is created until a restart |
| RateLimiter.Limiter.Handle | backend/src/middlewares/rateLimit.middleware.ts:19-43 | state and decision after a request are the step of the theorems |
| RateLimiter.Limiter.Sweep | backend/src/middlewares/rateLimit.middleware.ts:22-25 | the deleting loop leaves exactly the buckets still running |
| RateLimiter.FewerThanTwiceTheLimit | backend/src/middlewares/rateLimit.middleware.ts:19-43 | over any run with a running clock a key gets in fewer than twice its limit in any window's length, and there are never more than ten thousand keys |
| RateLimiter.NearlyTwiceTheLimitHappens | backend/src/middlewares/rateLimit.middleware.ts:28-42 | under every policy of a window of two milliseconds or more and a limit of one or more, one less than twice the limit does get in within a window's length |
| RateLimiter.SweepingIsInvisible | backend/src/middlewares/rateLimit.middleware.ts:22-34 | every decision of a run is that of a limiter that never sweeps and has no cap, exactly when each request finds its key in the table or fewer than ten thousand others there |
| RateLimiter.FewRecentKeysLeaveRoom | backend/src/middlewares/rateLimit.middleware.ts:22-34 | so however many keys call over time, while at most ten thousand call within a window and a sweep's interval sweeping and the cap change nothing |
| RateLimiter.RetryAfterIsExact | backend/src/middlewares/rateLimit.middleware.ts:37-41 | a caller refused for its own count gets in once the stated seconds have passed, and not a full second sooner |

## Left out

- The database, transactions and HTTP: tables are fields, one operation runs at a time. Foreign keys are in a schema that is not part of this model, so resolver theorems start from links that are injective; links to missing records are allowed and followed.
- Floating point, decimals and locale formatting: whole agorot; a decimal compared after rounding is compared exactly.
- Excel and PDF reading, column geometry, confidence scores and the classifier's patterns: parameters that give each description its class.
- Wording of notes and reasons: equal decisions carry equal notes.
- A user's choice of rows at a bank import (`selectedRows`) and import sessions: they bypass the counters and depend on files that are not part of this model.
- Storing detected commitments (`untracked`, `refresh`, `apply`): they depend on the loan calculator, which is not part of this model. Sorting the offers for display is left out too.
- Account-level interest credits, per-loan interest and salary candidates of a statement: annotations that add only sums and flags of the kind shown for months and round trips.
- The credit module's monthly breakdown, attribution dates, recategorisation and card totals: sums and display.
- What the card scraper itself filters by: only the dates a sync hands it and the rows it would accept are modelled.
- Several server processes: the claims live in one process's memory.
- Reconciliation listings, loan activity, describe functions, alerts, budgets and the frontend: display.
- ReconciliationService.Service.SettleIncome: income deletion and creation are one method and the expense side another, where the source does both deletions before both creations; the two tables are independent, so the outcome is the same, but a crash between the two writes is not modelled.
- ReconciliationService.Service.SettleExpense: see SettleIncome; business name, which the source sets to the description, is not kept apart.
- DecisionPolicy.FindInternalTransferIds: the source filters the rows first; here rows that are not candidates stay as bystanders no scan may take, which keeps the same order of scanning.
- LedgerRuns.StepKeepsWellLinked: the source refuses to delete a loan that is closed; here any loan may go, so the runs are the source's and more.
- SyncWindows.ScrapingStartsEarlyEnough: for an instalment taken by its charge alone the bound is on that date, since the row's own date can be older (OldPurchasesAreDatedEarlier).
- SyncProtocol.FinishedIsNeverOverwritten: a database write takes effect or fails as a whole; a write that takes effect but reports failure is not modelled, and no progress event follows the scrape's result.
- RateLimiter.RetryAfterIsExact: for a bucket that still stands; a sweep in between can put the caller behind the cap on keys.
