# Verification of the ERP ledger and its neighbours

This project models the accounting ledger of the ERP backend as a transactional state machine and
proves what holds in every reachable state and over every run: the books balance, shut periods are
frozen, journal numbers have no gaps, payments tie out to accounts, the account tree stays a forest.
Around it stand four smaller models with laws of their own: the fixed-window rate limiter, the
metrics registry, the repair of variant attributes, and the canonical form of OpenAPI documents.

Check everything with `dafny verify dfyconfig.toml`.

## How the model is laid out

| files | what they model |
|---|---|
| `Wrappers`, `Sums`, `Strings`, `Digits`, `Sorting`, `KeyOrder`, `Runs`, `Isolation` | options and results, sums and filters, splitting and joining, numerals, sorting, lists sorted by key, runs of steps, what plain reads see |
| `Doubles`, `Decimals`, `DoubleCheck` | IEEE doubles with round-to-nearest as a relation, amounts as decimal strings, and the balance check as it computes on doubles |
| `DoubleEntry`, `Calendar`, `Accounts` | the balance check on integer cents, UTC days and calendar years, the account tree |
| `LedgerModel`, `LedgerStore` | every accounting service as a function on the tables, and as a method that changes them; a failed transaction restores them |
| `LedgerInvariant`, `LedgerHistory`, `LedgerQueries`, `PaymentTieOut` | the state invariant, whole runs, the two read models, payments against accounts |
| `LedgerEffects`, `PaymentEffects`, `AccountEffects` | what each service writes, field by field, and exactly when it succeeds |
| `BranchViews`, `JournalViews` | which trial balances and ledgers a journal changes, and by how much, branch by branch |
| `Paging`, `LedgerPages` | reading a query page by page, and the pages of the general ledger |
| `Numbering`, `NumberGaps`, `PostRace`, `PeriodRace` | concurrent number draws and when they leave gaps, concurrent posts and cancels, periods shut meanwhile, one statement at a time |
| `FixedWindow`, `WorstCase`, `RateLimitGuards` | the Redis counter as a timed trace, a trace that reaches its bound, and the guards that read the counter |
| `Labels`, `Metrics`, `HttpMetrics` | label strings, histograms in place, the interceptor's bracket around each request |
| `CanonicalJson` | sorting the keys of nested objects |
| `Catalog`, `Repair`, `RepairRun`, `RepairEffects`, `RepairScript` | recognizing colors and sizes, one option, whole runs, what a run does to the rows, and the script as loops over them |

Amounts are integer cents; `DoubleCheck` shows that the code's arithmetic on doubles, together with
the DECIMAL(14,2) columns its results are stored in, accepts exactly what the integer check accepts.
A row's id is its position in its table. Clocks, random ids, what the database answers first, and the
order of interleaved steps are parameters of the steps, so every theorem about runs covers all of them.

## Where the code does not do what is expected of it

- The handler that answers a refused insert with the existing journal keeps the number it drew, but only
  if its second search sees that journal. With the snapshot reads of the database's default isolation
  it never does, and every interleaving is gapless (`NumberGaps.SnapshotReadsAreGapless`). With reads of
  what is committed now, two transactions that post one payment can leave a gap
  (`NumberGaps.LatestReadsLeaveGap`); every interleaving is gapless if and only if no two transactions
  are to post the same source (`NumberGaps.GaplessIffSourcesDiffer`). The code names no isolation level;
  its one caller posts a payment that the same transaction has created.
- `cancel` reads the draft and saves its copy without a lock, so POSTED is not terminal. A late save
  marks the posting CANCELLED (`PostRace.StaleCancelUndoesPost`) or, when it reloads the row after the
  commit, also takes the totals, user and instant back to the draft's
  (`PostRace.StaleCancelErasesPost`). POSTED is terminal from a given moment on exactly when no
  `cancel` is between its read and its write (`TerminalIffNoPendingCancel`).
- `post` reads the period and its fiscal year without a lock, so it can commit into a shut period. With
  snapshot reads it sees both as they were when it read the lines; with latest reads it sees each as it
  is when it is read. It commits into a shut period exactly when the period was locked or the year
  closed, and not opened again, since the step that decided what it saw
  (`PeriodRace.CommitsIntoShutIff`). A lock after all reads is missed by both kinds of read
  (`CommitsIntoShut`), one between the read of the lines and that of the period by snapshot reads
  only (`SnapshotMissesLock`, `LatestSeesLock`).
- The general ledger is ordered by date and journal number, which the lines of one journal share. Reading
  it page by page is sure to show every line once if and only if no page ends within a journal
  (`LedgerPages.PagesCompleteIff`). With pages of one line a nonempty ledger that is not filtered by
  account never is (`LedgerPages.OneLinePages`).
- Printed labels cannot always be read back: a route is not sanitized, and a comma in it can make reading
  fail (`Labels.CommaInRouteCannotBeRead`). Reading undoes printing exactly when no value holds a
  comma, an equals sign or a quote (`RoundTripIff`).
- The comment of the global rate limiter says that its exempt prefixes work under any API prefix. They
  match only as the first path segment, so a health path below an API prefix is limited
  (`RateLimitGuards.ExemptIffFirstSegment`).
- The second period lookup, described as a guard against a race, returns a period without checking its
  status. In serial runs it never finds one (`SecondLookupFindsNothing`).

## Model

| member | source | states |
|---|---|---|
| Doubles.NearestError | src/modules/accounting/utils/double-entry.ts:30-32 | one correctly rounded operation on a value whose product with 2^k fits 53 bits is off by at most 2^-(k+1), for any tie-breaking |
| Decimals.ToCentsExact | src/modules/accounting/utils/double-entry.ts:30-32 | `toCents` of a two-decimal amount is its exact number of cents, up to 2^51 cents either way |
| Decimals.ToFixedExact | src/modules/accounting/services/accounting-posting.service.ts:169 | `Number(x).toFixed(2)` prints the amount that was read |
| Decimals.CentsRoundTrip | src/modules/accounting/utils/double-entry.ts:30-36 | `toCents(centsToDecimalString(c))` is c, and the printed hundredths are c |
| Decimals.RunningTotalExact | src/modules/accounting/utils/double-entry.ts:81-87 | a double accumulator over cents is exact while every running total is within 2^53 |
| Decimals.FormatParses | src/modules/accounting/utils/double-entry.ts:34-36 | every amount survives being printed with two decimals and parsed again |
| Doubles.NearestExists | src/modules/accounting/utils/double-entry.ts:30-32 | every real value has a correctly rounded double |
| DoubleCheck.ReadingExists | src/modules/accounting/utils/double-entry.ts:70-87 | all lines whose amounts fit their columns can be read, turned into cents and accumulated in doubles |
| DoubleCheck.DoubleCheckIsExact | src/modules/accounting/utils/double-entry.ts:70-99 | for all lines: the check on doubles accepts and its totals fit the header columns if and only if the lines balance in integers and their total fits |
| DoubleCheck.TotalFitsIff | src/modules/accounting/utils/double-entry.ts:81-87 | the double total fits the column exactly when the exact total does, and then equals it |
| DoubleCheck.StoredTotalIsExact | src/modules/accounting/utils/double-entry.ts:96-99 | the decimal written to the header is the exact sum of the debit lines and of the credit lines |
| DoubleEntry.AssertOneSidedLine | src/modules/accounting/utils/double-entry.ts:44-62 | no error exactly when one side is positive and the other 0, with the error of the first failing check |
| DoubleEntry.AssertBalanced | src/modules/accounting/utils/double-entry.ts:70-100 | the loop accepts exactly nonempty one-sided lines with equal sums and returns those sums, or the first error |
| DoubleEntry.CheckBalanced | src/modules/accounting/utils/double-entry.ts:70-100 | accepts if and only if the lines balance; both totals are then the sum of the debits |
| DoubleEntry.ReversalBalances | src/modules/accounting/services/accounting-posting.service.ts:311-318 | exchanging the sides of an accepted journal is accepted again with the same totals; exchanging twice restores the lines |
| DocumentNumbers.FormatDocumentNumberInjective | src/modules/inventory/utils/document-number.ts:6-12 | the printed number determines year and sequence, also beyond six digits |
| DocumentNumbers.FormatDocumentNumberText | src/modules/inventory/utils/document-number.ts:6-12 | the text is prefix, year and sequence between dashes, the sequence with at least six digits and exactly six below a million |
| Calendar.DayHolds | src/modules/accounting/services/accounting-period-resolver.service.ts:58-71 | an instant is on the UTC day whose 24 hours contain it |
| Calendar.YearUnique | src/modules/accounting/services/accounting-period-resolver.service.ts:91-93 | a UTC day lies in exactly one calendar year, from 1 January to 31 December |
| Calendar.YearLength | src/modules/accounting/services/accounting-period-resolver.service.ts:91-93 | calendar years are contiguous, 366 days long in leap years and 365 otherwise |
| Accounts.WalkIsExact | src/modules/accounting/services/accounts.service.ts:208-242 | on an acyclic same-company tree the bounded walk accepts exactly when the account is not at or above the new parent; its bound never decides |
| Accounts.ChainEnds | src/modules/accounting/services/accounts.service.ts:214-233 | an acyclic chain of parents ends within the number of the company's accounts |
| Accounts.UpdateAccepts | src/modules/accounting/services/accounts.service.ts:159-184 | from a forest, a re-parent succeeds exactly when the new parent is an account of the company that is neither the account nor a descendant |
| Accounts.UpdateKeepsForest | src/modules/accounting/services/accounts.service.ts:159-184 | every update leaves the accounts an acyclic same-company forest |
| Accounts.CreateKeepsForest | src/modules/accounting/services/accounts.service.ts:123-157 | so does every creation |
| AccountEffects.CreateSucceedsIff | src/modules/accounting/services/accounts.service.ts:123-157 | an account is created exactly for an active company, below one of its accounts or as a root, with a code the company does not use; the error is that of the first of these that fails |
| AccountEffects.CreateWrites | src/modules/accounting/services/accounts.service.ts:145-156 | the new account is active, has the fields of the request, and is the only change |
| AccountEffects.UpdateRefusals | src/modules/accounting/services/accounts.service.ts:159-242 | the error of an update: not found, own parent, parent of another company, or parent below the account, in this order |
| AccountEffects.UpdateWrites | src/modules/accounting/services/accounts.service.ts:159-184 | an accepted update sets, removes or keeps the parent as asked, sets name and activity where given, and changes nothing else |
| AccountEffects.SubtreeMoves | src/modules/accounting/services/accounts.service.ts:159-184 | after a move exactly the account and its descendants have come below the new parent, and the descendants stay the same |
| AccountEffects.MovedChains | src/modules/accounting/services/accounts.service.ts:159-184 | the chain of a moved account or descendant is the old one up to the account, then that of the new parent, or ends there |
| AccountEffects.OtherChainsStay | src/modules/accounting/services/accounts.service.ts:159-184 | all other chains stay as they were |
| AccountEffects.CodesAlwaysDistinct | src/modules/accounting/services/accounts.service.ts:136-144 | in every reachable state no company has two accounts of one code |
| LedgerModel.PostableError | src/modules/accounting/services/journal-entries.service.ts:343-362 | no error exactly when period and fiscal year are both open |
| LedgerModel.FindPeriod | src/modules/accounting/services/accounting-period-resolver.service.ts:63-71 | answers a period of the company covering the day, or none covers it |
| LedgerModel.FindCalendarYear | src/modules/accounting/services/accounting-period-resolver.service.ts:103-109 | answers a period of exactly that calendar year, or there is none |
| LedgerModel.FindBySource | src/modules/accounting/services/journal-entries.service.ts:485-495 | answers an entry of that source, or there is none |
| LedgerModel.LinesAccountError | src/modules/accounting/services/journal-entries.service.ts:171-193 | no error exactly when every line's account exists, is active and belongs to the company |
| LedgerInvariant.ResolveOpenPeriodCorrect | src/modules/accounting/services/accounting-period-resolver.service.ts:58-133 | in consistent tables the resolver answers an open period of an open year of the company covering the day and keeps the invariant, or refuses because that period is shut and changes nothing; entries, lines and accounts stay |
| LedgerInvariant.SecondLookupFindsNothing | src/modules/accounting/services/accounting-period-resolver.service.ts:95-112 | the second lookup never answers when the first did not, so no period skips the status checks |
| LedgerInvariant.CoveringPeriodUnique | src/modules/accounting/services/accounting-period-resolver.service.ts:65-71 | at most one period of a company covers a day, so taking the first row is no choice |
| LedgerInvariant.OnePeriodPerYear | src/modules/accounting/services/accounting-period-resolver.service.ts:36-40 | a company has at most one period per calendar year |
| LedgerEffects.ResolverAccepts | src/modules/accounting/services/accounting-period-resolver.service.ts:58-133 | the resolver succeeds exactly when the period of the day, if there is one, is open in an open year; a closed year is named before a locked period |
| LedgerEffects.ResolverWrites | src/modules/accounting/services/accounting-period-resolver.service.ts:58-133 | a day with a period gets that one and nothing is written; a day without gets its calendar year, open, in a new open fiscal year of the company |
| LedgerEffects.CreateWrites | src/modules/accounting/services/journal-entries.service.ts:205-303 | a created journal is a draft of the requested company, branch, user and date, with the next number, and line k of the request as its k-th row, with account, amounts and reference; older rows stay |
| LedgerEffects.CreateSucceedsIff | src/modules/accounting/services/journal-entries.service.ts:165-303 | it succeeds if and only if company, branch and every account can be used, the day admits postings, and the amounts and their sums fit their columns |
| LedgerEffects.CreateRefusals | src/modules/accounting/services/journal-entries.service.ts:165-303 | the error of a refused draft is that of the first check that fails |
| LedgerEffects.PostSucceedsIff | src/modules/accounting/services/journal-entries.service.ts:315-362 | posting succeeds exactly for a draft of the company whose stored lines balance and whose day admits postings; an entry of another company is not found |
| LedgerEffects.PostWrites | src/modules/accounting/services/journal-entries.service.ts:364-379 | posting sets status, user, instant and totals of the one header and nothing else |
| LedgerEffects.CancelWrites | src/modules/accounting/services/journal-entries.service.ts:382-392 | cancelling a draft of the company changes its status and nothing else |
| LedgerInvariant.DrawnNumberIsFree | src/modules/accounting/services/journal-entries.service.ts:133-163 | the number drawn next is never in use, so the unique number index never refuses an insert |
| LedgerInvariant.NumberAndSaveRefusals | src/modules/accounting/services/journal-entries.service.ts:252-297 | in consistent tables a save fails only for a taken source, an amount outside its column or an unknown account |
| LedgerInvariant.InternalRefusals | src/modules/accounting/services/journal-entries.service.ts:406-476 | every way an automatic journal can be refused, for well-formed lines |
| LedgerInvariant.NoDuplicateSource | src/modules/accounting/services/accounting-posting.service.ts:254-277 | after a lookup that found nothing, the source index refuses nothing: the duplicate handler is dead in serial runs |
| LedgerInvariant.FirstPosting | src/modules/accounting/services/accounting-posting.service.ts:145-278 | a first posting is: map the accounts, then write one journal, or fail and change nothing |
| LedgerInvariant.MappedAccounts | src/modules/accounting/services/accounting-posting.service.ts:54-123 | mapped accounts belong to the payment's company |
| PaymentEffects.FindsSource | src/modules/accounting/services/journal-entries.service.ts:485-495 | the lookup answers the entry made for the source exactly when there is one |
| PaymentEffects.InternalWrites | src/modules/accounting/services/journal-entries.service.ts:406-476 | an automatic journal is posted from the start, with the given company, branch, date, user, source and lines, now |
| PaymentEffects.InternalSucceedsIff | src/modules/accounting/services/journal-entries.service.ts:406-476 | it is written if and only if it balances, its day admits postings, its source is new and its amounts fit |
| PaymentEffects.MapsIff | src/modules/accounting/services/accounting-posting.service.ts:54-123 | a payment can be mapped exactly when both its accounts exist, are active and belong to its company |
| PaymentEffects.MapRefusals | src/modules/accounting/services/accounting-posting.service.ts:169-223 | otherwise the error names what is missing or unusable, the cash account first |
| PaymentEffects.PostPaymentWrites | src/modules/accounting/services/accounting-posting.service.ts:145-278 | a payment with an entry gets that answer and nothing is written; a first posting writes one journal of the payment's company, branch and date, by the caller, now, with its amount on both sides |
| PaymentEffects.PostPaymentSucceedsIff | src/modules/accounting/services/accounting-posting.service.ts:145-278 | a first posting succeeds if and only if the accounts can be used, the amount is positive and fits, and the day admits postings |
| PaymentEffects.ReversalAnswers | src/modules/accounting/services/accounting-posting.service.ts:280-320 | a reversal answers nothing if and only if the payment is a refund or has no entry; otherwise it writes a journal exactly when today admits postings and the random id is new |
| PaymentEffects.ReversePaymentWrites | src/modules/accounting/services/accounting-posting.service.ts:299-319 | the reversal has the payment's company and branch, is dated now, and takes back the original line by line |
| PaymentEffects.ReversalNetsToZero | src/modules/accounting/services/accounting-posting.service.ts:299-319 | original and reversal net to 0 on every account |
| LedgerInvariant.CreateKeepsInv | src/modules/accounting/services/journal-entries.service.ts:205-303 | creating a draft keeps the invariant: totals equal line sums, accounts of the same company, numbers, sources, periods |
| LedgerInvariant.PostKeepsInv | src/modules/accounting/services/journal-entries.service.ts:315-379 | posting keeps it, and POSTED entries balance |
| LedgerInvariant.CancelKeepsInv | src/modules/accounting/services/journal-entries.service.ts:382-392 | cancelling keeps it |
| LedgerInvariant.CreateInternalKeepsInv | src/modules/accounting/services/journal-entries.service.ts:406-476 | automatic journals keep it |
| LedgerInvariant.PostPaymentKeepsInv | src/modules/accounting/services/accounting-posting.service.ts:145-278 | posting a payment keeps it |
| LedgerInvariant.ReversePaymentKeepsInv | src/modules/accounting/services/accounting-posting.service.ts:280-320 | reversing a payment keeps it |
| LedgerInvariant.RunKeepsInv | src/modules/accounting/services/journal-entries.service.ts:133-476 | the invariant holds after every run of creations, posts, cancels, payments, reversals, account changes and administrative changes |
| LedgerHistory.NumbersGapless | src/modules/accounting/services/journal-entries.service.ts:133-163 | in every state of a serial run, the sequences in use for a company and year are exactly 1 up to its counter |
| LedgerHistory.NumbersDistinct | src/modules/accounting/services/journal-entries.service.ts:133-163 | no two entries of a company share a number |
| LedgerHistory.HeadersMatchLines | src/modules/accounting/services/journal-entries.service.ts:258-297 | in every reachable state, for drafts, posted and cancelled entries alike, header totals are the sums of the lines and every line's account belongs to the entry's company |
| LedgerHistory.DecidedIsFinal | src/modules/accounting/services/journal-entries.service.ts:315-392 | an entry that is POSTED or CANCELLED, and its lines, never change in any later serial run |
| LedgerHistory.ShutPeriodFrozen | src/modules/accounting/services/journal-entries.service.ts:343-362 | while a period stays locked or its year closed, its posted lines never change, over any run segment |
| LedgerHistory.ShutDaysFrozen | src/modules/accounting/services/accounting-period-resolver.service.ts:73-87 | neither do the posted lines of the company dated on its days |
| LedgerHistory.PeriodLinesAreDayLines | src/modules/accounting/services/accounting-period-resolver.service.ts:58-133 | the posted lines of a period are the company's posted lines dated on its days |
| LedgerHistory.PeriodsPersist | src/modules/accounting/services/accounting-period-resolver.service.ts:114-132 | a period keeps its year, company and days over every run |
| LedgerHistory.SourceUnique | src/modules/accounting/services/journal-entries.service.ts:485-495 | in every state reachable from empty tables two entries never share company, source type and source id |
| LedgerHistory.FoundForever | src/modules/accounting/services/journal-entries.service.ts:485-495 | once an entry is found by its source, the same entry is found after every later run: reversals never shadow it |
| LedgerHistory.PostPaymentIdempotent | src/modules/accounting/services/accounting-posting.service.ts:153-161 | a second posting of a payment, after any run, answers the same entry and changes nothing |
| LedgerHistory.PostedPaymentFound | src/modules/accounting/services/accounting-posting.service.ts:145-278 | a successful posting is the entry the lookup by source then finds |
| LedgerQueries.QueryTrialBalance | src/modules/accounting/services/trial-balance.service.ts:38-110 | the rows are the groups by account of the selected posted lines in order of account code, and the totals are the sums over the groups |
| LedgerQueries.GroupRowsByAccount | src/modules/accounting/services/trial-balance.service.ts:42-78 | the scan computes the groups by account of the lines the filter selects |
| DoubleCheck.TrialBalanceTotalIsExact | src/modules/accounting/services/trial-balance.service.ts:90-109 | the total added up in doubles over the rows, and the decimal printed for it, are exact up to 2^51 cents |
| LedgerQueries.Matches | src/modules/accounting/services/general-ledger.service.ts:56-88 | the conditions added one by one are the listed filter |
| LedgerPages.ListedIds | src/modules/accounting/services/general-ledger.service.ts:56-88 | the scan finds the ids of exactly the lines of the filter; in table order they are the general ledger the trial balance agrees with |
| LedgerPages.QueryGeneralLedger | src/modules/accounting/services/general-ledger.service.ts:49-115 | the answer is the requested page of some listing of exactly the filter's lines in order of date and number, with the number of all of them; an earlier date comes first, and on one date the smaller number |
| LedgerPages.PagesCompleteIff | src/modules/accounting/services/general-ledger.service.ts:104-115 | the pages together show every listed line exactly once, whatever order the database gives to lines of equal date and number on each request, if and only if no page ends between two lines of one journal |
| LedgerPages.OneLinePages | src/shared/dto/pagination.dto.ts:15-20 | with a limit of one line, a nonempty ledger not filtered by account has an answer that repeats a line and misses another |
| Paging.SplitWalk | src/modules/accounting/services/general-ledger.service.ts:104-107 | at a page boundary between rows of one sort key the row before it can be shown twice and the row behind it never |
| LedgerQueries.ReadModelsAgree | src/modules/accounting/services/general-ledger.service.ts:56-88 | for every account the sums of its general-ledger rows up to an instant are its trial-balance row as of that instant; without rows there is no such row |
| LedgerQueries.WindowIsDifference | src/modules/accounting/services/general-ledger.service.ts:79-88 | the rows in a window account for the difference of two trial balances |
| LedgerQueries.BooksBalance | src/modules/accounting/services/trial-balance.service.ts:38-110 | in consistent tables every trial balance, for any company, branch filters and instant, has equal totals |
| LedgerQueries.BooksAlwaysBalance | src/modules/accounting/services/trial-balance.service.ts:38-110 | so in every state reachable from empty tables |
| LedgerQueries.LaterJournalInvisible | src/modules/accounting/services/trial-balance.service.ts:61-65 | a journal dated after an instant changes no trial balance as of that instant |
| BranchViews.JournalMovesBalance | src/modules/accounting/services/trial-balance.service.ts:42-65 | a journal that becomes posted adds its amounts, account by account, to every trial balance of its company, date and branch, and changes none that names another branch or a list without its branch |
| BranchViews.AllowedIsSumOfBranches | src/modules/accounting/services/trial-balance.service.ts:55-59 | the balance of a list of allowed branches is the sum of the balances of its distinct branches |
| BranchViews.UnfilteredIsSumOfBranches | src/modules/accounting/services/trial-balance.service.ts:51-59 | without a filter, or with an empty list, it is the sum over all branches and the journals that have none |
| JournalViews.DraftIsHidden | src/modules/accounting/services/general-ledger.service.ts:56-62 | creating a draft changes no trial balance and no general ledger |
| JournalViews.CancelledIsHidden | src/modules/accounting/services/general-ledger.service.ts:56-62 | neither does cancelling one |
| JournalViews.LedgerGains | src/modules/accounting/services/general-ledger.service.ts:56-88 | the general ledger gains exactly the lines of a new posted journal, in the queries that do not hide it |
| JournalViews.ManualJournalShows | src/modules/accounting/services/journal-entries.service.ts:205-379 | lines that balance can be posted as soon as they are created, and are then exactly what the general ledger has gained |
| JournalViews.PaymentMovesBalances | src/modules/accounting/services/accounting-posting.service.ts:225-252 | posting a payment adds its amount to the debit of one account and the credit of the other in every trial balance of its company, branch and date, and changes no other |
| JournalViews.ReversalMovesBalances | src/modules/accounting/services/accounting-posting.service.ts:299-319 | a reversal adds what the original has on the other side, dated today, in the same branch, and changes no other trial balance |
| PaymentTieOut.MappedSides | src/modules/accounting/services/accounting-posting.service.ts:169-223 | money received debits cash and credits the customer's receivable account; money paid debits the supplier's payable account and credits cash; refunds are not mapped |
| PaymentTieOut.PaymentsTieOut | src/modules/accounting/services/accounting-posting.service.ts:145-320 | after any run the net debit of each account over automatic journals is the signed sum of the payments that could be posted, each taken back once per reversal that could be made, also when both sides are one account; which those are is asked of the payments and the tables, not of the answers |
| PaymentTieOut.OpensIff | src/modules/accounting/services/accounting-posting.service.ts:145-278 | the service posts for the first time exactly the payments that can be posted |
| PaymentTieOut.ReversesIff | src/modules/accounting/services/accounting-posting.service.ts:280-320 | and reverses exactly those that can be reversed |
| PaymentTieOut.ItemsDistinct | src/modules/accounting/services/accounting-posting.service.ts:153-161 | no payment is counted twice |
| PaymentTieOut.ReversalLeavesEarlierBalances | src/modules/accounting/services/accounting-posting.service.ts:300-319 | a reversal changes no trial balance as of an earlier instant |
| PaymentTieOut.ReversalRefusals | src/modules/accounting/services/accounting-posting.service.ts:280-320 | a reversal is refused only for a shut period or a random id in use: it always balances |
| LedgerStore.Store.ResolveOpenPeriod | src/modules/accounting/services/accounting-period-resolver.service.ts:58-133 | the statements on the tables do what the specification does |
| LedgerStore.Store.GenerateJournalNumber | src/modules/accounting/services/journal-entries.service.ts:133-163 | upsert, read and update leave the counter one higher and answer the new number |
| LedgerStore.Store.AssertLinesReferenceValidAccounts | src/modules/accounting/services/journal-entries.service.ts:171-193 | the loop finds the error of the first unusable line |
| LedgerStore.Store.Create | src/modules/accounting/services/journal-entries.service.ts:205-303 | all statements of the draft, or none |
| LedgerStore.Store.Post | src/modules/accounting/services/journal-entries.service.ts:315-379 | a draft that balances in an open period becomes POSTED with its totals; otherwise nothing changes |
| LedgerStore.Store.Cancel | src/modules/accounting/services/journal-entries.service.ts:382-392 | a draft becomes CANCELLED; otherwise nothing changes |
| LedgerStore.Store.CreateInternal | src/modules/accounting/services/journal-entries.service.ts:406-476 | the statements of an automatic journal do what the specification does |
| LedgerStore.Store.PostPayment | src/modules/accounting/services/accounting-posting.service.ts:145-278 | the existing entry, or a new journal, or an error with all tables as they were |
| LedgerStore.Store.ReversePayment | src/modules/accounting/services/accounting-posting.service.ts:280-320 | the reversal journal, or nothing to reverse, or an error with all tables as they were |
| LedgerStore.DraftTotals | src/modules/accounting/services/journal-entries.service.ts:261-266 | the loop's two totals are the sums of the draft's amounts |
| LedgerStore.Store.AssertNoCycle | src/modules/accounting/services/accounts.service.ts:208-242 | the loop decides as the bounded walk and ends within count + 1 steps, also on cyclic data |
| LedgerStore.Store.CreateAccount | src/modules/accounting/services/accounts.service.ts:123-157 | the account is added, or the error of the first failing check leaves all accounts as they were |
| LedgerStore.Store.CheckParent | src/modules/accounting/services/accounts.service.ts:186-242 | no error exactly as specified for a valid parent that closes no cycle |
| LedgerStore.Store.UpdateAccount | src/modules/accounting/services/accounts.service.ts:159-184 | the patch is applied as specified, or nothing changes |
| Numbering.EveryNumberAccountedFor | src/modules/accounting/services/journal-entries.service.ts:133-163 | for any interleaving of transactions, under snapshot or latest reads, every number from 1 to the counter is either in the journal exactly once or dropped exactly once, and no other number is |
| Numbering.NumbersNeverRepeat | src/modules/accounting/services/journal-entries.service.ts:133-163 | no interleaving gives a journal number twice |
| Numbering.GaplessWithoutHandler | src/modules/accounting/services/journal-entries.service.ts:133-163 | every interleaving without the duplicate handler is gapless on every counter |
| NumberGaps.SnapshotReadsAreGapless | src/core/transaction/transaction.service.ts:8-10 | with snapshot reads, every interleaving of any transactions is gapless on every counter: the handler never finds a journal to answer with |
| NumberGaps.LatestReadsLeaveGap | src/modules/accounting/services/accounting-posting.service.ts:254-277 | with latest reads, two transactions that search for one source before either inserts leave a gap |
| NumberGaps.GaplessIffSourcesDiffer | src/modules/accounting/services/accounting-posting.service.ts:145-278 | with latest reads, every interleaving of given postings is gapless if and only if no two transactions are to post the same source |
| NumberGaps.AloneIsSerial | src/modules/accounting/services/journal-entries.service.ts:133-163 | without other transactions the interleaved steps are the serial draw |
| PostRace.AtMostOneCommits | src/modules/accounting/services/journal-entries.service.ts:315-392 | for any interleaving of posts, cancels and period changes at most one `post` of a draft commits; the row then is its posting, or that posting or the original draft marked CANCELLED |
| PostRace.PostedMeansCommitted | src/modules/accounting/services/journal-entries.service.ts:364-370 | a POSTED row is, in every column, the posting of a committed `post` |
| PostRace.OthersConflict | src/modules/accounting/services/journal-entries.service.ts:328-333 | once the row has left DRAFT, every other `post` ends in a conflict or loses its connection |
| PostRace.TerminalIffNoPendingCancel | src/modules/accounting/services/journal-entries.service.ts:382-392 | a POSTED row stays as it is in every continuation if and only if no `cancel` is between its read and its write |
| PostRace.AtomicCancelMakesPostedTerminal | src/modules/accounting/services/journal-entries.service.ts:382-392 | with `cancel` as one step, POSTED is terminal in every run |
| PostRace.StaleCancelUndoesPost | src/modules/accounting/services/journal-entries.service.ts:382-392 | a run in which a save that reloaded the draft before the commit marks the posting CANCELLED |
| PostRace.StaleCancelErasesPost | src/modules/accounting/services/journal-entries.service.ts:382-392 | a run in which a save that reloaded the row after the commit turns it into the original draft, CANCELLED |
| PeriodRace.CommitsIntoShutIff | src/modules/accounting/services/journal-entries.service.ts:338-379 | with snapshot and with latest reads: a `post` about to commit saw period and year open, and commits into a shut period if and only if, since the step that decided what it saw, the period was locked or the year closed and not opened again |
| PeriodRace.ReadOnce | src/modules/accounting/services/journal-entries.service.ts:338-350 | each of those steps happens once in a run, so the condition names one moment for the period and one for the year |
| PeriodRace.CommitsIntoShut | src/modules/accounting/services/journal-entries.service.ts:343-379 | a run, with either kind of read, in which the period is locked after both were read and the `post` still commits |
| PeriodRace.SnapshotMissesLock | src/modules/accounting/services/journal-entries.service.ts:338-379 | a run with snapshot reads in which the period is locked before it is read, nothing is shut afterwards, and the `post` still commits |
| PeriodRace.LatestSeesLock | src/modules/accounting/services/journal-entries.service.ts:343-362 | the same steps with latest reads fail with the error of a locked period and leave the draft |
| PostRace.AlonePostIsSerial | src/modules/accounting/services/journal-entries.service.ts:315-379 | without interference the steps of one `post` do what the serial post does |
| PostRace.AloneCancelIsSerial | src/modules/accounting/services/journal-entries.service.ts:382-392 | and those of one `cancel` do what the serial `cancel` does |
| FixedWindow.WindowsApart | src/modules/redis/cache.service.ts:87-115 | in any trace the windows of a key are disjoint and start at least its time to live apart |
| FixedWindow.WindowAdmitsAtMostMax | src/modules/redis/cache.service.ts:87-115 | each window admits exactly its first max requests |
| FixedWindow.AnyIntervalAdmitsLessThanTwiceMax | src/common/security/global-rate-limit.guard.ts:80-103 | any interval as long as the window admits at most 2 * max - 1 requests, and none when max is 0 |
| WorstCase.BoundIsReached | src/common/security/global-rate-limit.guard.ts:80-103 | that bound is exact: for every maximum there is a trace with an interval that admits 2 * max - 1 |
| FixedWindow.NextRequestAdmittedIff | src/common/security/global-rate-limit.guard.ts:80-103 | the next request is admitted exactly when its live window had fewer than max, or, with no live window, when max >= 1 |
| FixedWindow.WindowEnds | src/modules/redis/cache.service.ts:93-97 | a window ends its time to live after `EXPIRE`, and never before `EXPIRE` has run |
| RateLimitGuards.IncrementIsTrace | src/modules/redis/cache.service.ts:87-115 | one call is the two commands of the trace |
| RateLimitGuards.Cache.Increment | src/modules/redis/cache.service.ts:87-115 | the counter and the answer for each outcome of the two commands |
| RateLimitGuards.LostExpireNeverEnds | src/modules/redis/cache.service.ts:93-97 | a first count whose `EXPIRE` fails is never reset |
| RateLimitGuards.GlobalRateLimitGuard.CanActivate | src/common/security/global-rate-limit.guard.ts:60-104 | exempt, skipped or disabled requests leave no trace; the others are counted by address and refused exactly when the known count exceeds the maximum; a first count whose `EXPIRE` fails is admitted, a later one judged by its count |
| RateLimitGuards.PerUserRateLimitGuard.CanActivate | src/common/security/per-user-rate-limit.guard.ts:39-77 | the same per route and user, where a limit is declared, for each outcome of the two commands |
| RateLimitGuards.ExemptIffFirstSegment | src/common/security/global-rate-limit.guard.ts:106-110 | exempt are exactly the paths whose first segment is health, metrics or docs |
| RateLimitGuards.KeysAreSeparate | src/common/security/per-user-rate-limit.guard.ts:57-58 | different addresses, routes or users never share a counter |
| Labels.RoundTripIff | src/observability/metrics/metrics-registry.service.ts:395-416 | labels come back from their printed form, without empty values, if and only if no value holds a comma, an equals sign or a quote |
| Labels.InsertionOrderIrrelevant | src/observability/metrics/metrics-registry.service.ts:395-403 | the order in which labels are given does not change the printed form |
| Labels.SameSeriesIff | src/observability/metrics/metrics-registry.service.ts:395-403 | two clean label objects name the same series exactly when they agree on all nonempty values |
| Labels.BucketLabelsAreObserved | src/observability/metrics/metrics-registry.service.ts:279-296 | a rendered bucket line carries the observed labels together with its bound |
| Labels.SanitizedIsClean | src/observability/metrics/metrics-registry.service.ts:429-431 | sanitized values always come back |
| Labels.SanitizeLabel | src/observability/metrics/metrics-registry.service.ts:429-431 | every character of the result is plain, plain characters stay, the length stays |
| Labels.CommaInRouteCannotBeRead | src/observability/metrics/metrics-registry.service.ts:405-423 | a route such as `/a,b`, makes reading back fail |
| Metrics.RenderedIsExact | src/observability/metrics/metrics-registry.service.ts:279-311 | after any observations each rendered bucket counts exactly those of its series up to its bound, buckets are monotone, `+Inf` equals `_count` and bounds them all, and the sum is exact |
| Metrics.NumbersAgree | src/observability/metrics/metrics-registry.service.ts:362-382 | buckets, sums and counts are what the observations say, series by series |
| Metrics.BucketsMonotone | src/observability/metrics/metrics-registry.service.ts:374-378 | counts do not decrease with the bound and never exceed the number of observations |
| Metrics.Histogram.Observe | src/observability/metrics/metrics-registry.service.ts:362-382 | the in-place update of one series' array, sum and count; arrays of other series stay as they are |
| Metrics.Histogram.RaiseBuckets | src/observability/metrics/metrics-registry.service.ts:374-378 | every bucket that reaches the duration goes up by one |
| Metrics.Histogram.RenderSeries | src/observability/metrics/metrics-registry.service.ts:279-296 | the lines of a series: its buckets, then its count |
| HttpMetrics.GaugeIsInFlight | src/observability/metrics/metrics.interceptor.ts:26-37 | under every well-bracketed interleaving the gauge is the number of requests in flight, and the clamp has never acted |
| HttpMetrics.CounterMatchesHistogram | src/observability/metrics/metrics-registry.service.ts:158-175 | per series, the request counter, `_count` and `+Inf` are all the number of finished requests |
| HttpMetrics.SameSeriesOfRequests | src/observability/metrics/metrics-registry.service.ts:158-175 | two finished requests whose route and status are clean are in one series exactly when sanitized method, route and status agree |
| HttpMetrics.UnmatchedExitIsHidden | src/observability/metrics/metrics-registry.service.ts:353-360 | what the clamp hides when an exit has no entry |
| HttpMetrics.Registry.IncrementCounter | src/observability/metrics/metrics-registry.service.ts:344-351 | one series of a known counter goes up by one |
| HttpMetrics.Registry.AddGauge | src/observability/metrics/metrics-registry.service.ts:353-360 | one series of a known gauge changes, not below 0 |
| HttpMetrics.Registry.EnterRequest | src/observability/metrics/metrics.interceptor.ts:26 | entering is the entry step |
| HttpMetrics.Registry.FinalizeRequest | src/observability/metrics/metrics.interceptor.ts:28-39 | finishing is the exit step: counter, histogram and gauge |
| CanonicalJson.CanonicalForm | src/common/swagger/openapi.ts:79-97 | two documents have equal images if and only if they differ in nothing but the order of keys, at any depth |
| CanonicalJson.Idempotent | src/common/swagger/openapi.ts:83-97 | the image is sorted at every depth and is its own image |
| CanonicalJson.PathsKept | src/common/swagger/openapi.ts:83-97 | along every path of keys and indices the image holds the image of what the document holds: nothing is lost, added or reordered in arrays |
| KeyOrder.SortKeeps | src/common/swagger/openapi.ts:89-93 | sorting entries by key keeps the entries and their map and puts them in order |
| KeyOrder.SortIgnoresOrder | src/observability/metrics/metrics-registry.service.ts:400 | two lists of the same map sort to the same list |
| Catalog.FindsItself | src/database/seeds/attribute-option.catalog.ts:124-139 | the value of every catalog entry is recognized as that entry |
| Catalog.TokenFindsEntry | src/database/seeds/attribute-option.catalog.ts:15-139 | so is every code and every alias: no earlier entry of the kind recognizes it |
| Catalog.UnspecifiedNotFound | src/database/scripts/repair-variant-attribute-links.ts:35-50 | the fallback value is recognized as no catalog entry |
| Catalog.CodesDiffer | src/database/seeds/attribute-option.catalog.ts:15-122 | entries of one kind have different codes |
| Catalog.CatalogPairResolves | src/database/seeds/attribute-option.catalog.ts:141-189 | the old key of every catalog color and size is read as exactly that pair, whatever the sku |
| Catalog.SkuSuffixResolves | src/database/seeds/attribute-option.catalog.ts:169-188 | without an old key, a sku is read by its last two parts, the color and then the size, trimmed, whatever comes before them and whatever else they hold, if neither is blank |
| Catalog.SkuOfTokensResolves | src/database/seeds/attribute-option.catalog.ts:169-188 | any tokens of a color and a size without a dash, such as aliases, at the end of a sku name the two |
| Repair.EnsureSettles | src/database/scripts/repair-variant-attribute-links.ts:117-186 | the entry ends up with one option in canonical form, and codes stay unique |
| Repair.EnsureKeepsSettled | src/database/scripts/repair-variant-attribute-links.ts:117-186 | normalizing for one entry is never undone for another |
| Repair.EnsureIdle | src/database/scripts/repair-variant-attribute-links.ts:149-183 | a settled entry costs no write |
| RepairRun.RunRepairs | src/database/scripts/repair-variant-attribute-links.ts:188-303 | after a completed run every scanned variant has exactly one color, one size and the key made of them, and every catalog option is canonical |
| RepairEffects.RunSettlesCatalog | src/database/scripts/repair-variant-attribute-links.ts:117-186 | every company of a scanned variant ends with every catalog option, with the catalog's code, value, color sample and place, active, and no code twice |
| RepairEffects.UnlinkedGetsNamed | src/database/scripts/repair-variant-attribute-links.ts:195-289 | a scanned variant without two proper attributes or a key with a bar ends with the color and size its old key or sku names, else the two fallbacks, and their key |
| RepairEffects.LinkedKeepsOptions | src/database/scripts/repair-variant-attribute-links.ts:195-289 | one that has them keeps its options and gets their key |
| RepairEffects.OthersStay | src/database/scripts/repair-variant-attribute-links.ts:188-303 | a variant that was not scanned stays as it is |
| RepairRun.RunRepairsAsNamed | src/database/scripts/repair-variant-attribute-links.ts:188-303 | after a completed run every scanned variant that was not normalized before has the options its old key or sku named, or the fallbacks |
| RepairRun.RepairedAsNamed | src/database/scripts/repair-variant-attribute-links.ts:209-241 | the same for the step of one variant |
| RepairRun.SecondRunWritesNothing | src/database/scripts/repair-variant-attribute-links.ts:52-303 | a second run, with the rows in any order, writes nothing and changes nothing |
| RepairRun.KeyIgnoresOrder | src/modules/products/utils/combination-key.ts:10-12 | the key does not depend on the order of its ids |
| RepairEffects.KeyDeterminesIds | src/modules/products/utils/combination-key.ts:10-12 | ids without a bar have one key exactly when they are the same two, in either order |
| RepairScript.EnsureRow | src/database/scripts/repair-variant-attribute-links.ts:117-186 | the two searches, the field-by-field changes and the write counts are as specified |
| RepairScript.NormalizeOption | src/database/scripts/repair-variant-attribute-links.ts:149-177 | the option after all changes, and whether any was needed |
| RepairScript.Script.PickOptions | src/database/scripts/repair-variant-attribute-links.ts:195-241 | the options a variant is to have, and the rows created or normalized for them |
| RepairScript.Script.WriteVariant | src/database/scripts/repair-variant-attribute-links.ts:243-289 | key and attribute rows change exactly where they differ |
| RepairScript.Script.RepairVariantAttributeLinks | src/database/scripts/repair-variant-attribute-links.ts:188-303 | the loops over companies, entries and variants are the specified run |

## Left out

- Concurrent period creation: the theorems about periods hold for serial runs of whole transactions;
  what interleaved changes of a period or year do to `post` is in `PeriodRace`.
  Automatic journals read the period as one step with the rest.
- Concurrent account updates: the check and the save of a re-parent are one step.
- Isolation beyond row locks, unique indexes, atomic rollback and what plain reads see of journals in
  `Numbering` and of the period and its year in `PostRace`. Deadlocks and lock timeouts are rollbacks;
  the random source of a reversal is new, so its search is not a step.
- Columns of a journal other than status, totals, user and instant do not change in `PostRace`.
- Which row a query without an order answers first: it is the first in the table, and the queries
  concerned have at most one answer in every reachable state.
- The number `uuid` of a reversal is a parameter; two equal ones are refused as a duplicate source.
- Years outside 1000 to 9999, whose dates the code prints without padding: the model has no text form
  of dates.
- Rounding of instants to the precision of a TIMESTAMP column.
- Descriptions, names and other text of accounts, journals and periods; foreign keys to companies,
  branches and users.
- Totals of a trial balance above 2^51 cents: the totals are added in integers, which
  `DoubleCheck.TrialBalanceTotalIsExact` justifies up to there.
- The theorems about reading all pages of the general ledger take it as unchanged between the requests.
- Redis failures: `INCR` failing and `EXPIRE` failing are outcomes of the guards' calls; the theorems
  about windows assume that an `EXPIRE` that is sent succeeds. Clocks of Redis do not run backwards.
- How a guard finds the client's address, and log messages.
- `sanitizeRoute`: the route is a parameter, already rewritten. `render` is modelled series by series,
  without the help and type lines.
- Durations in the metrics are integers, sums are exact; a request whose stream is never subscribed is
  not modelled.
- Comparisons of keys: `localeCompare` and `sort` are any total order that is 0 on equal keys only.
  Integer-like keys, which JavaScript objects list first, and the printed text of a document are not
  modelled.
- White space other than blank, tab, line feed and carriage return, and case folding beyond ASCII.
- A repair run that fails halfway, for example on a unique index; the theorems are about completed runs.
- Everything else in the repository: controllers, configuration, messaging, inventory, sales, payroll,
  AI modules. Payments themselves are parameters of the posting steps.
