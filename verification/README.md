# Verification of the MNAB budgeting core

MNAB keeps a personal budget in whole cents: accounts, transactions, transfers, budget months with
envelopes and credit cards, schedules, imports and reconciliations. This project models the parts of
it that decide numbers and change ledgers, and proves what they keep.

## What is modelled

Amounts are `Cents.Money`, the signed 64-bit cent count with checked addition, subtraction and
negation; sums that a theorem talks about are taken over unbounded integers (`Sums.Total`) and tied
to the checked sums of the code. Errors are `Result` values with the source's own error kinds.

| Area | Files |
|---|---|
| Money text | `MoneyText.dfy`, `MoneyGrammar.dfy`, `Text.dfy` |
| Search language | `Search.dfy`, `SearchRoundTrip.dfy`, `SearchInput.dfy`, `SearchQuery.dfy`, `SearchMeaning.dfy` |
| Schedules | `Calendar.dfy`, `Recurrences.dfy`, `Occurrences.dfy`, `ScheduleService.dfy`, `ScheduleFacts.dfy` |
| Import matching | `EditDistance.dfy`, `Deduplication.dfy`, `ImportVerdicts.dfy` |
| Assignments and targets | `Assignments.dfy`, `AssignmentFrames.dfy`, `AutoAssign.dfy`, `AutoAssignAmounts.dfy`, `Targets.dfy` |
| Budget engine | `CreditCards.dfy`, `CardEvents.dfy`, `BudgetMonths.dfy`, `CategoryOutcomes.dfy`, `BudgetChain.dfy`, `BudgetConservation.dfy`, `BudgetWithCards.dfy`, `MonthCache.dfy`, `MonthViews.dfy` |
| Ledger services | `Ledger.dfy`, `Transfers.dfy`, `TransferAmounts.dfy`, `TransactionFrames.dfy`, `TransactionService.dfy`, `Balances.dfy`, `RunningBalances.dfy`, `AccountClosing.dfy`, `LedgerFrames.dfy`, `AccountGroups.dfy`, `GroupFrames.dfy` |
| Reconciliation | `Reconciliations.dfy`, `StatementRows.dfy`, `ReconciliationService.dfy` |
| Backups | `Retention.dfy`, `RetentionSlots.dfy` |
| Shared | `Wrappers.dfy`, `Cents.dfy`, `Sums.dfy`, `CheckedSums.dfy`, `Entities.dfy` |

Code that the source writes as loops or as methods that update fields is a method or a class here,
proved equal to a specification function; the theorems are lemmas about those functions. Each ledger
service has a state (`State`, `World`), a command type and `Apply`, one step of the service; every
class method is proved to perform exactly that step, the methods of the transaction, schedule, group and
closing services to keep their invariant with it, and a `Run...` lemma carries the invariant through every
sequence of commands. Identifiers the program draws (UUIDs), dates the caller supplies
and the row a hash-map search happens to meet are parameters of the command.

What a step or a calculation answers is also stated without its specification function, from the
inputs and the state before it alone: which commands are accepted, which rows and fields they write
and which stay (`TransactionFrames`, `StatementRows`, `ScheduleFacts`, `GroupFrames`,
`AssignmentFrames`, `LedgerFrames`), which texts are read as what (`MoneyGrammar`, `SearchInput`),
which rows a search selects (`SearchMeaning`), and what cards, categories, imports, proposals and
backups come to (`CardEvents`, `CategoryOutcomes`, `ImportVerdicts`, `AutoAssignAmounts`,
`RetentionSlots`).

## Findings

Where the code does less than its names or documentation suggest, the exact condition is proved:

* Moving money from a category to itself creates it: both new values are computed before either is
  written, so the second write wins (`Assignments.MoveConserves`).
* The length of a month is computed from the first day of the following month, so month-anchored
  schedules abort from December 9999 on instead of reporting a date out of range
  (`Recurrences.MonthAnchored`, `Recurrences.DaysInMonthIsGregorian`).
* Completing a reconciliation tests the difference the session last calculated and stores one it
  calculates afresh. It balances exactly when the row changes since the last operation on the session
  move the session's balance by nothing in all (`Reconciliations.CompletionBalancesExactly`). It fails
  after an edit of a reconciled row (`Reconciliations.StaleCompletionDoesNotBalance`), and also when no
  reconciled row is ever touched, after a ticked row is edited back
  (`Reconciliations.ClearedEditDoesNotBalance`).
* Completing checks the rows that are ticked off but marks the rows that the record lists. After an
  operation whose recalculation overflowed the two differ, and the completed record can list a row of
  another account. It keeps completed records intact exactly when the listed rows are on the account,
  which holds in every run without overflow (`Reconciliations.CompletionIntactExactly`,
  `Reconciliations.RunWithoutOverflow`, `Reconciliations.OverflowedSessionMixesAccounts`).
* A search with an empty term, a plain term holding a colon, or an empty field value does not read
  back as itself (`SearchRoundTrip.RoundTrip`).
* A term that searches one text column writes an escape clause of two backslashes, where the bound
  pattern is written with one. All escape clauses of a compiled search fit its patterns exactly when it
  has no such term (`SearchQuery.EscapesMatchPatterns`); `account:x` is one
  (`SearchQuery.ColumnSearchEscapesByTwo`).
* An imported row matched by two exact identifiers, even two of the same existing row, is called
  ambiguous rather than an exact duplicate (`Deduplication.ExactDuplicateNeedsOneMark`).
* A category whose shortfall is only partly card spending reports that part as card overspending and
  the rest nowhere, so no later month is charged for it. A row reports its whole shortfall exactly when
  the shortfall is not partly on a card (`BudgetConservation.ShortfallReportedExactly`); spending 100
  with 30 of it by card forgives 70 (`BudgetConservation.CashIsForgiven`). From month to month the
  forgiven cash appears beside the card debt (`BudgetConservation.MonthToMonth`).
* Editing a transfer updates `other_amount` of both legs but not the body's own `amount`. All bodies
  keep stating their rows' amounts exactly until a leg is edited to another amount
  (`TransferAmounts.CommandAgreesExactly`); a transfer of 100 edited to 90 still says 100 inside
  (`TransferAmounts.EditedBodyIsStale`).
* Adding a transfer body, or editing an ordinary row into one, outside the transfer operations always
  breaks pairing; every other accepted addition or edit keeps it (`Transfers.AddKeepsPairsExactly`,
  `Transfers.EditKeepsPairsExactly`).
* An edit raises a schedule's version, except at the last 32-bit version, where it stays. If such an
  edit changes the series after an occurrence was modified, a refresh can give a second occurrence the
  id of the first (`ScheduleServices.SaturatedVersionRepeatsIds`). Unique ids stay unique through a
  successful refresh exactly when no sequence number of the window without an entry would get the id
  of an entry, and through a failing one exactly when none does before the point of failure
  (`Occurrences.RefreshKeepsIdsExactly`); through a run of commands, whatever is created and edited,
  exactly when no refresh of it clashes in this way (`ScheduleServices.RunKeepsIdsExactly`). Runs whose
  edits start from the stored version and keep the series at the last one never clash
  (`ScheduleServices.LegalRunNeverClashes`).
* The view of a month is charged with what all later months were assigned, but a change drops only
  the cached views from its own month on. The earlier ones stay current exactly when the months from
  there on were assigned as much in all as before; otherwise only their Ready to Assign is wrong, by
  the difference (`MonthViews.EarlierViewExactly`, `MonthViews.InvalidationKeepsViewsExactly`,
  `MonthViews.EarlierViewIsStale`). The application fills and invalidates this cache but does not read
  it back.
* The last instalment towards a dated target falls short exactly when the availability is negative
  (`Targets.LastPayment`), because negative availability counts as zero.

## Model

| member | source | states |
|---|---|---|
| MoneyText.Parse | src/domain/money.rs:71-141 | the prefix loop with the digit arithmetic behind it gives exactly the specified value or error, for entry and for import |
| MoneyText.Format | src/domain/money.rs:143-163 | pushing digits with a comma before every third one from the end gives the grouped display |
| MoneyText.PushedIsGrouped | src/domain/money.rs:147-155 | the digit loop's comma test puts a comma exactly between groups of three counted from the end |
| MoneyText.RoundTrip | src/domain/money.rs:71-163 | the display of every 64-bit amount, the minimum included, parses to that amount in both modes |
| MoneyText.ImportRoundsToNearestCent | src/domain/money.rs:59-141 | any accepted import text, however many fraction digits, becomes the nearest cent with ties away from zero, and keeps its sign |
| MoneyGrammar.ReadExactly | src/domain/money.rs:71-118 | the texts that show an amount are exactly those of a written grammar: blanks, parentheses, marks in either order, grouped or plain digits, fraction |
| MoneyGrammar.ParsesExactly | src/domain/money.rs:71-141 | a text is accepted if and only if it shows an amount with a 64-bit cent nearest to it, with at most two fraction digits or on import; otherwise it is invalid, an overflow or in need of rounding |
| MoneyGrammar.DisplayForm | src/domain/money.rs:143-163 | the display has a minus only for negative amounts, the mark, dollars without leading zeros in groups of three, a point and two digits, which add up to the amount |
| SearchLanguage.ScanToken | src/app/search.rs:132-171 | the index loop with its quoted flag reads one token: text, end, open quote and bad escape |
| SearchLanguage.LexAll | src/app/search.rs:120-172 | the outer loop yields every token with its span and every lexical diagnostic, in order |
| SearchLanguage.Parse | src/app/search.rs:120-192 | the terms when nothing went wrong, otherwise all diagnostics |
| SearchRoundTrip.ScanQuoted | src/app/search.rs:83-90 | a quoted and escaped value scans back to the value itself, whatever it contains |
| SearchRoundTrip.WordsOfCanonical | src/app/search.rs:47-81 | the printed text of a query splits into one clean token for each term that prints as anything |
| SearchRoundTrip.TermReadsBack | src/app/search.rs:193-261 | a printed term reads back as itself if and only if its plain text has no colon and its field value is not empty |
| SearchRoundTrip.RoundTrip | src/app/search.rs:47-261 | printing a query and parsing the text gives the query back if and only if every term is reprintable, provided the dates it mentions read back |
| SearchInput.PrintedTexts | src/app/search.rs:47-90 | each text term prints its field name, and its text in quotes exactly when it has whitespace, a quote or a backslash |
| SearchInput.PrintedValues | src/app/search.rs:47-81 | an amount prints its operator and the displayed amount, a date term its date |
| SearchInput.PrintedFlags | src/app/search.rs:47-81 | a flag prints true or false after its field name |
| SearchInput.PrintedLine | src/app/search.rs:47-81 | the printed terms are joined by single spaces |
| SearchInput.PlainOrMissing | src/app/search.rs:193-202 | a word without a colon is plain text and a field without a value is an error |
| SearchInput.TextFieldsRead | src/app/search.rs:203-208 | the text fields, in any letter case and under either name of the group field, take the value as typed |
| SearchInput.DateFieldsRead | src/app/search.rs:209-229 | the date fields, in any letter case, read a date or report an invalid one |
| SearchInput.FlagFieldsRead | src/app/search.rs:213-240 | the flag fields, in any letter case and under both names, read true, yes, 1 and false, no, 0 in any letter case, and report anything else |
| SearchInput.UnknownExactly | src/app/search.rs:203-220 | a field is unknown if and only if it spells none of the nineteen names |
| SearchInput.AmountExactly | src/app/search.rs:244-261 | the amount field accepts exactly an operator, which may be missing for equality, followed by an accepted amount, and reads that comparison |
| SearchInput.LineParses | src/app/search.rs:120-192 | a line of words, with any blanks between and any mix of bare and quoted stretches, parses to given terms if and only if each word does |
| SearchInput.LineReports | src/app/search.rs:120-192 | otherwise exactly the wrong words are reported, each with the span of what was typed for it |
| SearchInput.UnterminatedIsReported | src/app/search.rs:132-170 | an unclosed quote is the one error of its line, from the start of its word to the end |
| SearchInput.BadEscapeIsReported | src/app/search.rs:140-152 | a backslash in quotes before another character is the first error, with its span |
| SearchQuery.LikeFindsSubstring | src/app/search.rs:276-283 | the pattern matches a string exactly when the user's text is a substring of it, wildcards and backslashes included |
| SearchQuery.Compile | src/app/search.rs:275-381 | the loop pushes the clauses and bindings of the terms in order, joined by AND |
| SearchQuery.PlaceholdersMatchBinds | src/app/search.rs:275-381 | a compiled query has exactly one binding for each placeholder |
| SearchQuery.SqlHoldsNoUserText | src/app/search.rs:275-381 | queries that differ only in the texts, dates and amounts searched for compile to the same SQL |
| SearchQuery.EscapesMatchPatterns | src/app/search.rs:275-381 | every escape clause of a compiled search names the backslash its patterns are written with if and only if no term searches a single text column |
| SearchQuery.ColumnSearchEscapesByTwo | src/app/search.rs:294-308 | the search account:x writes an escape clause of two characters |
| SearchMeaning.PlanSelects | src/app/search.rs:275-381 | a compiled search without column terms is the conjunction of its terms' conditions and selects exactly the rows that every term asks for |
| SearchMeaning.ColumnTermSelects | src/app/search.rs:294-308 | a column term names its own column and would select the rows that hold its text, but for the escape clause |
| Calendar.OrderIsOrdinal | src/domain/schedule.rs:140-191 | comparing dates by year, month and day is comparing their day numbers |
| Calendar.AddDaysExact | src/domain/schedule.rs:177-179 | adding days lands on the date that many day numbers later, if the calendar has one |
| Recurrences.DaysInMonthIsGregorian | src/domain/schedule.rs:181-191 | the day before the next month's first gives the Gregorian month length, up to the last month that has a successor |
| Recurrences.MonthAnchored | src/domain/schedule.rs:163-176 | months later the day is the smaller of the start day and the month length; the computation aborts exactly from December 9999 on |
| Recurrences.RawDatesSpread | src/domain/schedule.rs:140-161 | for every recurrence, later sequence numbers are at least as many days later as their distance |
| Recurrences.OccurrenceDatesIncrease | src/domain/schedule.rs:140-161 | occurrence dates strictly increase with the sequence number |
| Recurrences.EarlierDateExists | src/domain/schedule.rs:140-161 | when the date of a sequence number can be computed, so can those of all earlier ones |
| Recurrences.SeriesHasPassed | src/domain/schedule.rs:140-161 | once a sequence number is past a date or past the end, no later one comes back before it |
| ScheduleFacts.DayDates | src/domain/schedule.rs:140-161 | a recurrence by days is dated so many days after the start, unless the calendar or the schedule has ended or the interval is zero |
| ScheduleFacts.MonthDates | src/domain/schedule.rs:140-176 | a recurrence by months is dated so many months after the start on its day or the last of the month; it aborts from December 9999 on |
| Occurrences.RefreshOnlyAdds | src/domain/schedule.rs:199-247 | a refresh keeps every existing entry and adds only generated entries dated inside the window |
| Occurrences.RefreshCoversWindow | src/domain/schedule.rs:199-247 | after a refresh every sequence number dated in the window has an entry |
| Occurrences.RefreshIsIdempotent | src/domain/schedule.rs:199-247 | repeating a successful refresh succeeds, changes nothing and reports nothing created |
| Occurrences.CreatedIdsAreNew | src/domain/schedule.rs:199-247 | the ids a refresh reports are exactly those of the entries it added |
| Occurrences.DuplicateExactly | src/domain/schedule.rs:212-229 | the scan reports a duplicate identity if and only if some sequence number dated in the window has no entry while another entry has the identity it would get |
| Occurrences.ReachedExactly | src/domain/schedule.rs:199-247 | a missing sequence number of the window gets its entry if and only if none up to it is such a duplicate, whether or not the refresh fails later |
| Occurrences.RefreshKeepsIdsExactly | src/domain/schedule.rs:199-247 | unique ids stay unique through a refresh if and only if no missing sequence number that the scan reaches would get the id of an existing entry; if it succeeds, if and only if none of the window would |
| ScheduleFacts.RefreshAddsNewOccurrences | src/domain/schedule.rs:199-247 | every entry that a refresh adds is pending, carries the schedule's amount, payee and category, its date in the window and an id made of its identity; an inactive schedule gets none |
| ScheduleFacts.DuplicateReported | src/domain/schedule.rs:212-229 | the duplicate error, in terms of the entries' schedules and identities |
| ScheduleFacts.ProjectionsShow | src/service/schedule_service.rs:66-87 | the projections of ids in use show the first occurrence under each, field by field |
| Occurrences.OccurrenceStore.RefreshSchedule | src/domain/schedule.rs:199-247 | the loop terminates and leaves exactly the specified entries, also when it stops at an error |
| Occurrences.OccurrenceStore.SetDisposition | src/domain/schedule.rs:256-280 | the first pending entry with the id changes its disposition; otherwise nothing changes |
| Occurrences.OccurrenceStore.ModifyOccurrence | src/domain/schedule.rs:281-292 | the first pending entry with the id gets the date and amount and a modified identity |
| ScheduleServices.ScheduleService.CreateSchedule | src/service/schedule_service.rs:31-39 | stores the schedule if its first date can be computed |
| ScheduleServices.ScheduleService.EditSchedule | src/service/schedule_service.rs:40-48 | stores the edited schedule under the next version |
| ScheduleServices.ScheduleService.Activation | src/service/schedule_service.rs:49-65 | switches only the active flag of a known schedule |
| ScheduleServices.ScheduleService.RefreshOccurrences | src/service/schedule_service.rs:66-87 | performs one refresh step, keeps the invariant and returns the projections of the ids created |
| ScheduleServices.ScheduleService.EnterOccurrence | src/service/schedule_service.rs:88-129 | entry and transaction are stored together or not at all |
| ScheduleServices.ScheduleService.SkipOrDismiss | src/service/schedule_service.rs:130-132 | settles a pending occurrence without a transaction |
| ScheduleServices.ScheduleService.ModifyOccurrence | src/service/schedule_service.rs:133-148 | changes date and amount of a pending occurrence and returns the projection found under its id |
| ScheduleServices.TracedIdsAreUnique | src/domain/schedule.rs:46-75 | ids made of schedule, version and generated date never repeat within a store |
| ScheduleServices.InvariantKept | src/service/schedule_service.rs:31-148 | every command whose edits start from the stored version, and keep the series at the last one, keeps the trace of each entry to its series definition and its identity |
| ScheduleServices.EnteredOnceKept | src/service/schedule_service.rs:31-148 | every command on every state, with ids repeated or not, keeps the one-to-one correspondence of entered occurrences and transactions |
| ScheduleServices.CommandKeepsIdsExactly | src/service/schedule_service.rs:31-148 | every command on every state keeps unique ids unique, except exactly the refreshes that clash |
| ScheduleServices.RunKeepsIdsExactly | src/service/schedule_service.rs:31-148 | through every run, with any creations and edits, ids stay unique if and only if no refresh of it clashes |
| ScheduleServices.LegalRunNeverClashes | src/service/schedule_service.rs:31-148 | in a run whose edits start from the stored version, and keep the series at the last one, ids are unique, no refresh clashes and no command reports a duplicate identity |
| ScheduleServices.EveryRunEntersOnce | src/service/schedule_service.rs:88-129 | in every run, with any creations and edits, entered occurrences and transactions correspond one to one with equal date and amount |
| ScheduleServices.SettledForever | src/service/schedule_service.rs:31-148 | an occurrence once entered, skipped or dismissed is the same in the final state of every run |
| ScheduleFacts.DefinitionWrites | src/service/schedule_service.rs:31-48 | when a definition is accepted, and that it is stored as given, an edit under the next version |
| ScheduleFacts.ActivationWrites | src/service/schedule_service.rs:49-65 | switching changes the active flag alone |
| ScheduleFacts.DispositionWrites | src/service/schedule_service.rs:130-132 | skipping or dismissing settles the first pending entry with the id and changes nothing else |
| ScheduleFacts.ModificationWrites | src/service/schedule_service.rs:133-148 | modifying gives that entry its date, amount and modified identity and changes nothing else |
| ScheduleFacts.EntryWrites | src/service/schedule_service.rs:88-129 | entering is accepted exactly for a first entry that is pending and whose schedule is known, and stores the transaction with all its fields |
| ScheduleFacts.EntryFails | src/service/schedule_service.rs:88-129 | which of the two errors an entry reports |
| ScheduleFacts.UnmodifiedKeeps | src/service/schedule_service.rs:31-148 | an occurrence that no command modifies keeps everything but its disposition through every run |
| ScheduleFacts.EnteredAsScheduled | src/service/schedule_service.rs:66-129 | from refresh to ledger: the transaction entered after any such run has the date, amount, payee and category of the schedule at the refresh, on the schedule's account |
| ScheduleServices.SaturatedVersionRepeatsIds | src/service/schedule_service.rs:40-48 | a concrete run in which an edit at the last version leads to two occurrences with one id |
| EditDistance.Levenshtein | src/importing/deduplication.rs:291-306 | the one-row in-place loops compute the recursive edit distance |
| EditDistance.DistanceIsMinimum | src/importing/deduplication.rs:291-306 | some edit script attains the distance and no script is cheaper |
| EditDistance.Symmetric | src/importing/deduplication.rs:291-306 | the distance is symmetric |
| EditDistance.ZeroOnlyForEqual | src/importing/deduplication.rs:291-306 | the distance is zero exactly for equal strings |
| EditDistance.Triangle | src/importing/deduplication.rs:291-306 | the distance satisfies the triangle inequality |
| EditDistance.LengthBounds | src/importing/deduplication.rs:284-306 | the distance lies between the difference and the maximum of the lengths, so similarity lies between zero and one |
| EditDistance.SimilarityIsSymmetricAndFullForEqual | src/importing/deduplication.rs:283-289 | thresholds on similarity are symmetric, and full similarity means equality |
| Deduplication.Classify | src/importing/deduplication.rs:79-224 | the passes push suggestions in source order, sort them by rank and index and decide |
| Deduplication.VerdictIsStrongest | src/importing/deduplication.rs:196-235 | the verdict is the best rank any suggestion has, with the earliest row of that rank, and is ambiguous when the rank is shared |
| Deduplication.ExactDuplicateNeedsOneMark | src/importing/deduplication.rs:79-224 | a row is an exact duplicate if and only if exactly one exact identifier of one existing row matches |
| Deduplication.ReimportIsAmbiguous | src/importing/deduplication.rs:79-224 | importing a row again that is among any existing rows, with an identifier of its own, is called ambiguous |
| ImportVerdicts.VerdictExactly | src/importing/deduplication.rs:79-240 | the verdict from the records alone: the strongest kind of evidence decides, named if there is one piece of it and ambiguous otherwise, pointing at the first record that gives any |
| Assignments.AssignmentBook.Apply | src/service/assignment_service.rs:70-85 | writes the changes in order, removes zeros and records what each replaced |
| Assignments.AssignmentBook.UndoCommand | src/service/assignment_service.rs:176-185 | writes the recorded values back in the order they were recorded |
| Assignments.AssignmentBook.MoveMoney | src/service/assignment_service.rs:127-137 | one command for both cells, or no change on overflow |
| Assignments.AssignmentBook.Distribute | src/service/assignment_service.rs:146-175 | one command for all shares, or no change on overflow |
| Assignments.AssignmentBook.ApplyPreview | src/service/assignment_service.rs:86-111 | all changes of a current and consistent preview, or none |
| Assignments.UndoInvertsApply | src/service/assignment_service.rs:70-185 | undoing a command restores the map exactly, even when the command writes a cell twice |
| Assignments.UndoStackRestores | src/service/assignment_service.rs:70-185 | undoing any stack of commands in reverse order restores the map exactly |
| Assignments.NoZerosKept | src/service/assignment_service.rs:70-85 | the map never stores a zero |
| Assignments.MoveConserves | src/service/assignment_service.rs:127-137 | a move conserves the total if and only if the categories differ or the amount is zero |
| Assignments.DistributionIsExactAndFair | src/service/assignment_service.rs:146-175 | in-order shares over distinct categories add up to the signed amount, equal shares leave out the remainder, and no two shares differ by more than a cent |
| Assignments.PreviewAppliesItsSum | src/service/assignment_service.rs:86-111 | an accepted preview with distinct categories changes the total by exactly its stated sum, its cells to their stated values, and nothing else |
| AssignmentFrames.CommandWrites | src/service/assignment_service.rs:70-85 | a command leaves in each cell what it wrote there last, a zero as no entry, and every other cell as it was |
| AssignmentFrames.MoveAccepted | src/service/assignment_service.rs:127-137 | a move is refused exactly when one of its two amounts has no 64-bit value |
| AssignmentFrames.DistributionAccepted | src/service/assignment_service.rs:146-175 | a distribution is refused exactly when some share has no room |
| AssignmentFrames.PreviewAccepted | src/service/assignment_service.rs:86-111 | a preview is accepted exactly at its own revision with changes that fit what is assigned now and a stated sum that is their sum |
| AutoAssign.BuildProposal | src/service/assignment_service.rs:188-252 | the loop over categories gives the specified changes, total, remainder and inverse commands |
| AutoAssignAmounts.ProposalStates | src/service/assignment_service.rs:188-289 | for each strategy the amount of each category from its own facts, averages cut off towards zero, with the sum, what it leaves and the amounts to go back to |
| AutoAssign.FreshProposalIsAccepted | src/service/assignment_service.rs:86-252 | a proposal made from the current assignments passes every check of its application |
| AutoAssign.ResetClearsCategories | src/service/assignment_service.rs:188-252 | applying a reset proposal leaves none of its categories assigned |
| AutoAssign.InverseCommandsRestore | src/service/assignment_service.rs:188-252 | applying a proposal and then its inverse commands restores every cell |
| AutoAssign.AverageIsBetween | src/service/assignment_service.rs:268-285 | the truncated average of the recent months lies between the least and the greatest of them |
| AutoAssign.ResetAvailableEmptiesCategory | src/service/assignment_service.rs:209-213 | assigning the proposal that resets availability makes the month calculation show nothing available |
| Targets.MonthsLeft | src/domain/target.rs:232-240 | on any date of the k-th month before the due month, k+1 months are counted |
| Targets.AdviceIsLeastInstalment | src/domain/target.rs:147-231 | for every kind of target the remaining amount is the gap, and a dated instalment is the least that closes it over the months left |
| Targets.AdviceFacts | src/domain/target.rs:147-217 | what a recommendation counts as target, funded and due, and that only a card payoff without a card is refused for that |
| Targets.AdviceInMonth | src/domain/target.rs:147-231 | for every dated kind, card payoff included, the recommendation in every month is that month's share of an even split of the original gap |
| Targets.AdviceReachesTarget | src/domain/target.rs:147-239 | for every dated kind, paying the recommendation once a month reaches the target exactly in the due month, never overshoots, and payments fall by at most one cent in all |
| Targets.AdviceOverflow | src/domain/target.rs:224-231 | the recommendation fails if and only if the debt without its sign, or the gap plus the months left less one, has no 64-bit value |
| Targets.LastPayment | src/domain/target.rs:147-217 | in the due month the payment reaches the target if and only if the savings are not negative |
| Retention.ApplyRetention | src/service/backup_service.rs:310-358 | the loop over buckets removes exactly the specified backups, in order |
| Retention.NewestIsKept | src/service/backup_service.rs:315-316 | the newest backup is never removed |
| Retention.RemovedIsCovered | src/service/backup_service.rs:325-343 | ten kept manual backups precede a removed manual one; a kept backup fills its day and its month when it is in those windows |
| Retention.SlotsAreExclusive | src/service/backup_service.rs:325-343 | no backup uses two buckets and no day or month is filled twice |
| Retention.RetentionIsIdempotent | src/service/backup_service.rs:310-358 | repeating the pass on what was kept removes nothing |
| RetentionSlots.SlotsExactly | src/service/backup_service.rs:300-344 | which slot a backup takes: one of ten manual ones, its day's within thirty days, its month's within 366, in this order and never for a database already kept |
| RetentionSlots.StaysExactly | src/service/backup_service.rs:300-360 | the databases removed are exactly those that are not newest and took no slot |
| RetentionSlots.RemovedInOrder | src/service/backup_service.rs:351-360 | they are removed in the order of the backups |
| CreditCards.Calculate | src/calculation/credit_card.rs:133-234 | the event loop refines the fold of the event step, with the first error it meets |
| CreditCards.MonthConserves | src/calculation/credit_card.rs:133-234 | balance, payment cash, refundable funding and total availability equal their start plus the signed contributions; debt created is purchases less funding and the sum of the card overspending |
| CreditCards.PaymentCashFloor | src/calculation/credit_card.rs:171-195 | a refund or payment never adds payment cash and never takes it below zero or its own level |
| CreditCards.PaymentCashNeverFalls | src/calculation/credit_card.rs:139-213 | over any event list refundable funding stays non-negative and payment cash stays above the smaller of zero and its start |
| CreditCards.MonthCore | src/calculation/credit_card.rs:139-213 | balance, cash and refundable funding do not depend on the categories |
| CreditCards.SplittingMonthsChangesNothing | src/calculation/budget_month.rs:301-311 | splitting one event list over consecutive months and carrying the card state gives the same final card state as one run |
| CardEvents.MonthWrittenOut | src/calculation/credit_card.rs:133-233 | each category ends with what it was listed with plus its own events, each overspending is what was bought unfunded, each contribution is the sum of its kind of event |
| CardEvents.FailureHasReason | src/calculation/credit_card.rs:122-233 | a month that fails for another reason than overflow has an event that shows the reason |
| BudgetMonths.CategoryLoop | src/calculation/budget_month.rs:147-193 | the category loop gives the row of each category and the shortfall it adds up |
| BudgetMonths.ReclassifyLoop | src/calculation/budget_month.rs:215-223 | patching rows from a card's overspending changes just the first row of each of its categories |
| BudgetMonths.CardLoop | src/calculation/budget_month.rs:204-243 | the card loop accumulates Ready to Assign, debt and patched rows in account order |
| BudgetMonths.Calculate | src/calculation/budget_month.rs:146-250 | the whole month refines its specification, errors included |
| CategoryOutcomes.RowIsReported | src/calculation/budget_month.rs:146-251 | how each category is reported: by the last card that is paid from it or overspent it, and otherwise by its own availability and card activity; and its funding from target and assignment |
| BudgetChain.PrepareCardLoop | src/calculation/budget_month.rs:287-312 | every card gets refilled categories and the state its account carried out of the previous month |
| BudgetChain.CalculateChronological | src/calculation/budget_month.rs:256-317 | sorting, rewriting each month from the previous result and calculating it gives the specified chain |
| CategoryOutcomes.NextMonthIsCharged | src/calculation/budget_month.rs:256-317 | what the next month is charged: exactly the shortfalls that no card and no card activity explains |
| CategoryOutcomes.NextMonthStarts | src/calculation/budget_month.rs:256-317 | a category that no card is paid from starts with its positive availability |
| CategoryOutcomes.NextMonthRefills | src/calculation/budget_month.rs:256-317 | each card that lists a category gets it with that and what it is given |
| CategoryOutcomes.PreparedWrites | src/calculation/budget_month.rs:256-317 | what preparing a month keeps and what it takes from the result before it |
| BudgetChain.ChainPrefix | src/calculation/budget_month.rs:256-317 | a prefix of the months gives the same prefix of the results |
| BudgetChain.SortKeepsOrder | src/calculation/budget_month.rs:256-260 | sorting by month keeps the order of inputs of the same month |
| BudgetChain.OrderDoesNotMatter | src/calculation/budget_month.rs:256-259 | for distinct months the results do not depend on the order of the inputs |
| BudgetChain.ResultsBeforeMonth | src/calculation/budget_month.rs:256-317 | the results before a month are those of the inputs before it alone |
| BudgetChain.EarlierCalculationStays | src/calculation/budget_month.rs:256-317 | input lists that agree before a month have the same calculation up to each earlier month, failures included, even if a later month overflows |
| BudgetChain.ResultUpToMonth | src/calculation/budget_month.rs:256-317 | a month's result among all months is its result in the calculation up to it |
| BudgetChain.EarlierResultsStay | src/calculation/budget_month.rs:256-317 | input lists that agree before a month have the same results before it |
| BudgetConservation.PositiveSplits | src/calculation/budget_month.rs:155-193 | what carries over is the availability plus the cash overspending plus the card-classified shortfall |
| BudgetConservation.ShortfallReportedExactly | src/calculation/budget_month.rs:155-175 | a row reports its whole shortfall as cash or debt if and only if the shortfall is not partly on a card, and otherwise leaves out the part that is not |
| BudgetConservation.CashIsForgiven | src/calculation/budget_month.rs:155-175 | a concrete category whose cash shortfall of 70 is reported nowhere |
| BudgetConservation.RowDebts | src/calculation/budget_month.rs:147-193 | the inferred debt is the sum over the rows, and no cash is forgiven exactly when no category is partly on a card |
| BudgetConservation.EverythingIsCarried | src/calculation/budget_month.rs:264-272 | with the same distinct categories, the next month starts from exactly what carried over |
| BudgetConservation.MonthToMonth | src/calculation/budget_month.rs:146-317 | Ready to Assign plus total availability changes by resources, inflows and activity, less future assignments, plus the previous month's card debt and the cash it forgave, which is none exactly when no shortfall was partly on a card |
| BudgetConservation.MonthReady | src/calculation/budget_month.rs:146-250 | Ready to Assign is what came over, less the cash overspending charged, plus the month's own parts and its card payments |
| BudgetConservation.ReadyTelescopes | src/calculation/budget_month.rs:256-317 | Ready to Assign is the opening amount plus every earlier month's own part less every earlier cash overspending |
| BudgetConservation.CardThroughMonths | src/calculation/budget_month.rs:287-312 | a card followed through the chain ends where one run over all its events ends |
| BudgetWithCards.CardsRows | src/calculation/budget_month.rs:209-243 | after all cards each row shows the envelope of its paying account, or what it showed before |
| BudgetWithCards.CategoryStart | src/calculation/budget_month.rs:146-317 | a category starts from its positive availability, a payment envelope from the card's whole payment cash |
| BudgetWithCards.MonthToMonthWithCards | src/calculation/budget_month.rs:146-317 | the month to month equation with continuing card accounts: card credits and net payment activity come in, and only shortfalls outside payment envelopes that were not reported as cash are left over |
| MonthCache.BudgetMonthCache.Get | src/app/view_model.rs:147-151 | answers exactly when the month is cached at the wanted version |
| MonthCache.BudgetMonthCache.Insert | src/app/view_model.rs:152-154 | stores the view under its own month |
| MonthCache.BudgetMonthCache.InvalidateFrom | src/app/view_model.rs:155-157 | keeps exactly the entries of earlier months, unchanged |
| MonthCache.InvalidationIsSound | src/app/runtime.rs:849-852 | after inputs change from a month on, every entry kept by invalidating from it agrees with the calculation up to its month, even if a later month now overflows |
| MonthCache.RunKeepsSound | src/app/view_model.rs:143-158 | through any run of calculations and input changes every entry agrees with the calculation up to its month |
| MonthCache.SoundAgreesWithRecomputation | src/app/view_model.rs:143-158 | wherever all months can be calculated, such an entry is the month's result in that calculation |
| MonthViews.EarlierViewExactly | src/storage/query_store.rs:1356-1388 | after a change from a month on an earlier month's view is the same if and only if the months from there on were assigned as much in all; otherwise just its Ready to Assign moves, against the difference |
| MonthViews.InvalidationKeepsViewsExactly | src/app/runtime.rs:849-852 | the views kept by an invalidation are what the query would build again if and only if none is kept or the months from there on were assigned as much in all |
| MonthViews.EarlierViewIsStale | src/storage/query_store.rs:1380-1383 | assigning 50 in a later month leaves the cached earlier month with 100 to assign where the query says 50 |
| Ledgers.DistributeRemainder | src/domain/transaction.rs:116-129 | the lines add up to the parent afterwards, only the last line's amount changes, and a failure changes nothing |
| Ledgers.DistributedLinesValidate | src/domain/transaction.rs:94-129 | lines that add up validate as a split unless adding them in order overflows |
| Transfers.CommandKeepsPairs | src/service/transaction_service.rs:268-631 | every command keeps each transfer row mirrored by exactly one partner |
| Transfers.RunKeepsPairs | src/service/transaction_service.rs:268-631 | so does every run of commands |
| Transfers.AddKeepsPairsExactly | src/service/transaction_service.rs:268-278 | an accepted addition keeps pairing if and only if it is no transfer |
| Transfers.EditKeepsPairsExactly | src/service/transaction_service.rs:279-304 | an accepted edit keeps pairing if and only if the stored row is a transfer leg or the new body is none |
| Transfers.TransfersConserveTotal | src/service/transaction_service.rs:439-631 | creating, editing, unlinking or deleting a transfer leaves the sum of all amounts unchanged |
| Transfers.PairSumsToZero | src/service/transaction_service.rs:495-506 | the two legs of a transfer cancel |
| TransactionFrames.FailureChangesNothing | src/service/transaction_service.rs:268-631 | a command that fails leaves rows, accounts, mark and history as they were |
| TransactionFrames.PostingFails | src/service/transaction_service.rs:221-267 | the error for a row that may not be stored: unknown account, closed account, or one of three for its split lines |
| TransactionFrames.ChangeFails | src/service/transaction_service.rs:235-404 | the error for a row that may not be changed |
| TransactionFrames.AddWrites | src/service/transaction_service.rs:268-278 | an addition is accepted exactly on a known account, open or confirmed, with fitting split lines, and stores the row as given |
| TransactionFrames.EditWrites | src/service/transaction_service.rs:279-304 | an accepted edit of an ordinary row leaves exactly the row given in its place |
| TransactionFrames.DeleteWrites | src/service/transaction_service.rs:305-322 | an accepted deletion removes exactly that row |
| TransactionFrames.DuplicateWrites | src/service/transaction_service.rs:323-341 | a duplicate is the same entry under the new id, uncleared and unapproved |
| TransactionFrames.ApproveWrites | src/service/transaction_service.rs:342-349 | approving changes the approval of the row alone |
| TransactionFrames.ClearanceWrites | src/service/transaction_service.rs:350-359 | setting the clearance changes that alone |
| TransactionFrames.CategorizeWrites | src/service/transaction_service.rs:360-373 | categorising changes the body alone, of a row that is no transfer leg |
| TransactionFrames.PayeeWrites | src/service/transaction_service.rs:374-383 | changing the payee changes that alone |
| TransactionFrames.MoveWrites | src/service/transaction_service.rs:384-405 | moving changes the account alone, of a row that is no transfer leg |
| TransactionFrames.BatchApproveWrites | src/service/transaction_service.rs:406-438 | a batch approves exactly its rows, or is refused exactly when one is unknown |
| TransactionFrames.BatchDeleteWrites | src/service/transaction_service.rs:414-438 | a batch deletes exactly its rows, or is refused exactly when one repeats or may not be deleted; mark and history too |
| TransactionFrames.TransferWrites | src/service/transaction_service.rs:439-455 | a transfer is accepted exactly between two different accounts of one budget for an amount with an opposite, and writes its two legs field by field |
| TransactionFrames.CategorizedTransferWrites | src/service/transaction_service.rs:456-494 | the same with category, effect account and memo on both legs |
| TransactionFrames.EditTransferWrites | src/service/transaction_service.rs:507-537 | an edit gives the leg the amount, the other leg its opposite and both the date, and nothing else |
| TransactionFrames.EditOfLegWrites | src/service/transaction_service.rs:279-304 | an edit of a leg edits the transfer, using only the date and amount given |
| TransactionFrames.DeleteBothWrites | src/service/transaction_service.rs:538-558 | deleting a transfer removes exactly its two legs |
| TransactionFrames.UnlinkWrites | src/service/transaction_service.rs:559-573 | unlinking changes the bodies of the two legs alone |
| TransferAmounts.EditedLegsAgree | src/service/transaction_service.rs:507-537 | of two legs whose bodies state their amounts, an accepted edit leaves both doing so if and only if it keeps the amount |
| TransferAmounts.CommandAgreesExactly | src/service/transaction_service.rs:268-631 | every legal command keeps all bodies stating their amounts, except exactly the accepted edits of a leg to another amount |
| TransferAmounts.RunAgrees | src/service/transaction_service.rs:268-631 | a run without such an edit leaves every body stating its amount |
| TransferAmounts.EditedBodyIsStale | src/service/transaction_service.rs:521-534 | a transfer of 100 edited to 90 still says 100 in its body |
| TransactionServices.TransactionService.AddRow | src/service/transaction_service.rs:268-278 | one step: row, watermark and audit line, or no change |
| TransactionServices.TransactionService.EditRow | src/service/transaction_service.rs:279-304 | one step of an edit, whichever partner the search meets |
| TransactionServices.TransactionService.DeleteRow | src/service/transaction_service.rs:305-322 | one step: deletes an ordinary row |
| TransactionServices.TransactionService.DuplicateRow | src/service/transaction_service.rs:323-341 | one step: a fresh unapproved copy of an ordinary row |
| TransactionServices.TransactionService.ApproveRow | src/service/transaction_service.rs:342-349 | one step: approves a known row |
| TransactionServices.TransactionService.ClearRow | src/service/transaction_service.rs:350-359 | one step: changes the clearance only |
| TransactionServices.TransactionService.CategorizeRow | src/service/transaction_service.rs:360-373 | one step: changes the category of an ordinary row |
| TransactionServices.TransactionService.PayRow | src/service/transaction_service.rs:374-383 | one step: changes the payee only |
| TransactionServices.TransactionService.MoveRow | src/service/transaction_service.rs:384-405 | one step: moves an ordinary row to an account of the same budget |
| TransactionServices.TransactionService.ApproveBatch | src/service/transaction_service.rs:406-438 | all approvals or the state before |
| TransactionServices.TransactionService.DeleteBatch | src/service/transaction_service.rs:414-438 | all deletions or the state before |
| TransactionServices.TransactionService.NewTransfer | src/service/transaction_service.rs:439-455 | one step: both legs or neither, and the ids of the legs |
| TransactionServices.TransactionService.NewCategorizedTransfer | src/service/transaction_service.rs:456-494 | one step: both legs with category and memo, or neither, and the ids of the legs |
| TransactionServices.TransactionService.StageTransfer | src/service/transaction_service.rs:575-631 | two mirrored legs on accounts of one budget, or the error of the first check that fails |
| TransactionServices.TransactionService.CheckPair | src/service/transaction_service.rs:495-506 | finds the other leg if there is one, and applies the mutation check to both |
| TransactionServices.TransactionService.EditBoth | src/service/transaction_service.rs:507-537 | one step: both legs get the date and the mirrored amounts |
| TransactionServices.TransactionService.DeleteBoth | src/service/transaction_service.rs:538-558 | one step: removes both legs |
| TransactionServices.TransactionService.Unlink | src/service/transaction_service.rs:559-573 | one step: turns both legs into ordinary rows |
| Balances.Derive | src/calculation/balances.rs:16-36 | each balance is the exact sum of the rows that count towards it, in whatever order they come |
| Balances.BalancesSplit | src/calculation/balances.rs:16-36 | the working balance is the cleared plus the uncleared balance |
| LedgerFrames.BalancesWrittenOut | src/calculation/balances.rs:12-36 | the four balances as sums over the rows of given clearances that are neither archived nor voided |
| RunningBalances.RunningBalances | src/calculation/balances.rs:38-54 | one line for each contributing row by date and id, showing the sum up to it; it fails exactly when such a sum has no 64-bit value, and ends on the working balance |
| LedgerFrames.RegisterWrittenOut | src/calculation/balances.rs:38-54 | a line of the register sums the rows of earlier dates and of its date up to its id |
| AccountClosing.AccountCloser.Close | src/service/account_service.rs:172-235 | closes with the chosen resolution of the working balance and keeps pairing, or changes nothing |
| AccountClosing.ClosedAccountIsEmpty | src/service/account_service.rs:172-235 | a closed account's working balance is zero, and only the account it was transferred to changes, by that balance |
| LedgerFrames.HoldingWrittenOut | src/service/account_service.rs:172-235 | the working balance as the sum over the account's rows that are neither archived nor voided |
| LedgerFrames.CloseWrites | src/service/account_service.rs:172-235 | when closing is accepted, and that it marks the account closed, adds the row or legs that resolve the balance, and writes nothing else |
| AccountClosing.ClosingKeepsPairs | src/service/account_service.rs:172-235 | closing keeps every transfer paired |
| AccountGroups.AccountGroupService.ValidateGroupParent | src/service/account_service.rs:406-431 | the walk up the parents terminates in a forest and finds the first of self parent, cycle, missing group and other budget |
| AccountGroups.AccountGroupService.CreateAccountGroup | src/service/account_service.rs:251-264 | the new group follows its siblings and the forest is kept |
| AccountGroups.AccountGroupService.NextSortOrder | src/service/account_service.rs:395-404 | one past the greatest position among the siblings, or the first position |
| AccountGroups.AccountGroupService.MoveAccountGroup | src/service/account_service.rs:265-287 | moves a group under a valid parent or changes nothing, and keeps the forest |
| AccountGroups.AccountGroupService.AssignAccount | src/service/account_service.rs:288-315 | puts an account in a group of its own budget or changes nothing, and keeps the forest |
| AccountGroups.AccountGroupService.DeleteAccountGroup | src/service/account_service.rs:316-362 | hands members to the chosen parent, refuses a non-empty group without one, or changes nothing, and keeps the forest |
| AccountGroups.ForestHasNoCycle | src/service/account_service.rs:406-431 | in a forest no group is above itself and every chain of parents ends, within one budget |
| AccountGroups.CreateKeepsForest | src/service/account_service.rs:251-264 | creating a group under a fresh id keeps the forest |
| AccountGroups.MoveKeepsForest | src/service/account_service.rs:265-287 | moving a group, with everything below it, keeps the forest |
| AccountGroups.DeleteKeepsForest | src/service/account_service.rs:316-362 | deleting a group keeps the forest and leaves no reference to the group |
| AccountGroups.RunKeepsForest | src/service/account_service.rs:251-361 | every run of group commands keeps a forest without dangling references |
| GroupFrames.VerdictExactly | src/service/account_service.rs:406-431 | why a group may not sit under a parent, from the chain of parents itself |
| GroupFrames.CreateWrites | src/service/account_service.rs:251-264 | a new group is accepted exactly where it may sit and stored as given |
| GroupFrames.MoveWrites | src/service/account_service.rs:265-287 | a move changes parent and position of one group alone |
| GroupFrames.SetAccountWrites | src/service/account_service.rs:288-315 | an account changes its group and position alone |
| GroupFrames.DeleteWrites | src/service/account_service.rs:316-362 | a deletion is accepted exactly for an empty group or a valid destination; what sat in the group sits in the destination, and nothing else changes |
| ReconciliationServices.ReconciliationService.Recalculate | src/service/reconciliation_service.rs:114-144 | the session shows the sum of its counted rows and the difference to the statement; a failure leaves at most the new balance behind |
| ReconciliationServices.ReconciliationService.Start | src/service/reconciliation_service.rs:53-96 | a fresh session over the account's eligible rows with the cleared ones ticked off |
| ReconciliationServices.ReconciliationService.SetClearedState | src/service/reconciliation_service.rs:145-160 | ticks or unticks an eligible row and recalculates, or is the half update of an overflow |
| ReconciliationServices.ReconciliationService.Correction | src/service/reconciliation_service.rs:161-177 | replaces an eligible row in ledger and session, or is the half update of an overflow, and refuses a row that leaves the account or the period |
| ReconciliationServices.ReconciliationService.ConfirmAdjustment | src/service/reconciliation_service.rs:193-243 | inserts the previewed adjustment as a ticked row, or is the half update of an overflow, and refuses an unconfirmed or stale preview |
| ReconciliationServices.ReconciliationService.CompleteSession | src/service/reconciliation_service.rs:244-288 | marks the ticked rows reconciled and stores the record, or changes nothing |
| ReconciliationServices.ReconciliationService.InvalidateChain | src/service/reconciliation_service.rs:361-400 | marks and logs exactly the account's records from the earliest one that includes the row |
| ReconciliationServices.ReconciliationService.EditReconciled | src/service/reconciliation_service.rs:305-330 | replaces the row, invalidates the chain and logs it, or changes nothing |
| ReconciliationServices.ReconciliationService.DeleteReconciled | src/service/reconciliation_service.rs:331-360 | deletes the row, or both legs of a transfer, invalidates the chain of each, and logs each row under each affected record |
| Reconciliations.InvalidationIsTheChain | src/service/reconciliation_service.rs:361-400 | editing or deleting an included row changes just that account's records from the earliest affected statement date onward |
| StatementRows.StartTakesUp | src/service/reconciliation_service.rs:53-113 | a session takes up exactly the account's rows through the date that are not reconciled, archived or voided, and ticks exactly the cleared ones |
| StatementRows.RecalculationFails | src/service/reconciliation_service.rs:114-144 | a recalculation fails exactly when the sum of the counted rows or its difference to the statement has no 64-bit value |
| StatementRows.HappensWhenPossible | src/service/reconciliation_service.rs:53-399 | when each operation is accepted, in terms of the session, its rows and the ledger |
| StatementRows.TickWrites | src/service/reconciliation_service.rs:145-160 | ticking changes whether one row is ticked, and the balance, difference and list that follow |
| StatementRows.CorrectionWrites | src/service/reconciliation_service.rs:161-177 | a correction replaces one row in ledger and session |
| StatementRows.AdjustmentWrites | src/service/reconciliation_service.rs:193-243 | an adjustment adds one cleared row over the difference on the statement date |
| StatementRows.OverflowWrites | src/service/reconciliation_service.rs:114-243 | an operation that overflows keeps its own writes and changes at most the stored balance |
| StatementRows.CompletionWrites | src/service/reconciliation_service.rs:244-288 | a completion reconciles exactly the listed rows, changes nothing else of any row, and stores the record with the recalculated balance |
| StatementRows.RunCompletesTickedRows | src/service/reconciliation_service.rs:53-288 | in every run without overflow a completion reconciles exactly the ticked rows, each on the account and dated no later than the statement |
| StatementRows.EditWrites | src/service/reconciliation_service.rs:305-400 | an edit replaces one row and marks exactly the chain of its former account |
| StatementRows.DeletionWrites | src/service/reconciliation_service.rs:331-400 | a deletion removes the row with the legs of its transfer and marks exactly their chains |
| Reconciliations.EventKeepsInvariant | src/service/reconciliation_service.rs:53-399 | every operation, overflowing ones included, keeps completed records intact and the open session apart from them, a completion if its listed rows are on the account |
| Reconciliations.RunKeepsCompletedIntact | src/service/reconciliation_service.rs:53-399 | in every run whose completions list only rows on their account, each record still marked Completed has all its rows present, on its account and reconciled |
| Reconciliations.CompletionIntactExactly | src/service/reconciliation_service.rs:244-288 | a completion keeps completed records intact if and only if the rows its record lists are on the account |
| Reconciliations.RunWithoutOverflow | src/service/reconciliation_service.rs:53-399 | in every run without overflow all completions list only rows on their account |
| Reconciliations.OverflowedSessionMixesAccounts | src/service/reconciliation_service.rs:131-288 | a concrete run in which an overflow leads to a completed record that lists a row of another account |
| Reconciliations.CompletionBalances | src/service/reconciliation_service.rs:244-288 | after a completion the reconciled rows through the statement date sum to the ending balance if and only if the balance it tested was still current |
| Reconciliations.CompletionBalancesExactly | src/service/reconciliation_service.rs:244-399 | after any run of row changes an up-to-date session's completion balances if and only if the changes move its balance by nothing in all |
| Reconciliations.QuietCompletionBalances | src/service/reconciliation_service.rs:114-399 | after any session operation and any run of changes to rows the session does not count, a completion balances |
| Reconciliations.AdjustmentClosesDifference | src/service/reconciliation_service.rs:193-243 | confirming an adjustment brings a current difference to zero |
| Reconciliations.StaleCompletionDoesNotBalance | src/service/reconciliation_service.rs:244-273 | a concrete run in which a completed record does not balance |
| Reconciliations.ClearedEditDoesNotBalance | src/service/reconciliation_service.rs:145-273 | a concrete run in which no reconciled row is touched and a completed record does not balance |
| CheckedSums.CheckedTotal | src/domain/reconciliation.rs:43-56 | a checked sum over a hash map, in any order, is the exact sum or an overflow, and no overflow when the sizes add up to a 64-bit value |

## Left out

- The user interface, SQLite storage, worker threads, repository traits with `batch_preflight` and `execute_batch`, settings, logging and all file access.
- UUIDs, SHA-256 and version 5 hashing: drawn identifiers are parameters that a run requires to be fresh, and an occurrence id is its identity (the hash is taken to be injective).
- SearchRoundTrip.RoundTrip: the dates that occur in the query are assumed to read back from their print, without whitespace or quotes in it; the date format itself is not modelled.
- SearchLanguage.LexAll: spans count characters, where the source counts bytes, and diagnostics carry no message.
- SearchLanguage.Parse: likewise for spans and messages of the diagnostics.
- EditDistance.SimilarityIsSymmetricAndFullForEqual: similarity is the exact ratio of distance to length; floating-point rounding at a threshold is not modelled.
- Deduplication.Classify: suggestions carry index and kind only, without evidence texts and weights; payee normalisation and fingerprints are fields of the record.
- Text is a sequence of characters rather than UTF-8 bytes.
- Library sorts are stable insertion sorts; a `BTreeMap` or hash map is a `map`, and loops over it visit its keys in any order.
- CreditCards.Calculate: the result's cash outflow and next-month availability, which repeat the payments made and the positive availability, are no fields of their own.
- CheckedSums.CheckedTotal: adds up the rows it is given; which rows those are is the caller's filter.
- Balances.Derive: whether an order-dependent checked sum overflows is not predicted exactly; it is shown not to when the sizes of the rows add up to a 64-bit value.
- AccountClosing.AccountCloser.Close: when the rows are too large for every order of adding them to succeed, an overflow error is allowed for any outcome of the other checks.
- Reconciliations.RunKeepsCompletedIntact: one session is open at a time; in a run with overflowing operations it asks that each completion list only rows on its account, because the code does not ensure it.
- ReconciliationServices.ReconciliationService.ConfirmAdjustment: the payee table is not modelled; the adjustment payee's id is a parameter.
- ReconciliationServices.ReconciliationService.DeleteReconciled: which history lines are added is stated, not their order across the two legs, which follows the hash map.
- ReconciliationServices.ReconciliationService.CompleteSession: the audit line is without the record's id, and completion times are not modelled.
- ScheduleServices.InvariantKept: an edit is required to start from the stored version and, at the last 32-bit version, to keep the series, because the code ensures neither; for all other runs `ScheduleServices.RunKeepsIdsExactly` says when ids stay unique.
- Recurrences.RawDate: for a custom interval the source multiplies two 32-bit numbers in 64 bits and builds a `Duration` of the product; both overflow for large products, where the model returns a date out of range. A refresh ends before it gets that far.
- Schedule validation on construction, `modify_series` (the service never calls it) and pending listings.
- AccountGroups.AccountGroupService.NextSortOrder: sort orders are unbounded; the source's 64-bit addition would abort at the maximum.
- Account creation, renaming, favourites, reopening, type changes and deletion of unused accounts; ordered listings of groups and accounts.
- The recalculation watermark is modelled as the code moves it, but nothing is claimed about which dates it must cover after an edit.
- MonthCache.RunKeepsSound: the inputs' own charge for later months is taken as given (`MonthViews` follows it through the query); the cached view is its month, version and result, not the formatted rows.
- Fields of the month input that no calculation reads: tracking balances, separate cash and card spending totals, hidden and archived flags.
- Retention.ApplyRetention: the directory scan, validation of artifacts and removal of files are left out; the list is taken newest first, as the sort leaves it.
- Replacing, adding to, resetting and assigning all in one cell, each of which is one command with one change.
- The SQL of the month query: its rows are taken as already grouped by month, and all its errors are one.
- Target editing and validation, percentage status and target associations.
- Import file formats and their decoding, command tables, inbox merging, reports and category reordering.
