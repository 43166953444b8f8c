# Budget service aggregation model

A Dafny model of the budget aggregation logic of a personal budget-tracking
backend. The model covers `BudgetService` in `src/modules/budget/budget.service.ts`.
Users log dated expense entries ("budgets"). The service answers four kinds of
request over them:

- `create` stores an entry. When the entry is dated in the current month, it
  reports the user's current-month spend and limit.
- `checkLimit` reports the current-month spend and the user's limit.
- `findAll` lists the user's entries, optionally filtered to one rendered day,
  newest first, with a count and optional paging.
- `getAnalytics` builds three chart series:
  - a gap-filled daily series for the previous month;
  - a gap-filled monthly series for the twelve months ending with the previous
    month;
  - the last six entries of the monthly series.

The budget collection is a sequence of `Records.Budget` documents. Each MongoDB
aggregation pipeline becomes a function over that sequence:

- `$match` becomes `OwnedBy`, `DatedWithin` or `FormattedAs`.
- `$group` becomes `PriceOf` or `GroupSum`.
- `$sort` becomes `SortNewestFirst`.
- `$skip`/`$limit` become `Page`.

`findAll` assembles its pipeline by conditional pushes. It is modelled as
`BudgetService.BudgetStore.FindAll`. That method builds the `Listing.Stage`
lists the same way and interprets them with `Listing.Run` and
`Listing.CountAndPage`. Its postcondition ties the answer to the declarative
selection, sort and page. The operations that change the collection (`create`,
`update`, `remove`) are methods of the class `BudgetService.BudgetStore`. That
class holds the collection as a `seq<Budget>` and keeps ids unique.

Modules and files:

- `wrappers.dfy`: `Option` and `Result`.
- `calendar.dfy`: the Gregorian leap-year rule, month lengths, month stepping
  across year boundaries (`SubMonths`), month windows on instants, and the
  enumeration of the days of a month and of a run of months.
- `records.dfy`: the budget document, the user directory, filters and price
  sums, lookup and deletion by id.
- `grouping.dfy`: `$group` by a rendered label, the `find` lookup, gap-filling,
  and the proof that a gap-filled series adds up to the total.
- `listing.dfy`: the `findAll` stages, sorting, paging and the `$facet` count.
- `monthly.dfy`: the current-month sum of `create` and `checkLimit`.
- `analytics.dfy`: `getAnalytics`.
- `service.dfy`: the store class.

Time is modelled as follows:

- An instant is `Calendar.Instant(local, millisOfDay)`: the server's local
  calendar day and the milliseconds since local midnight.
- `startOfMonth` is local midnight of day 1. `endOfMonth` is the last
  millisecond of the last day. So the closed windows `$gte start, $lte end`
  select exactly the instants whose local month is in range
  (`Calendar.MonthWindow`, `Calendar.MonthRangeWindow`).
- "Now" is a parameter (its local date).
- Time-zone rendering is a function parameter, never an interpreted time zone.
  There are three renderings:
  - `findAll`'s `'%d-%m-%Y'` string in the request's zone (`render`);
  - `getAnalytics`' `month/day` key in the request's zone (`dayInZone`);
  - `getAnalytics`' `month/year` key in UTC (`monthInUtc`).
- Labels are pairs (`Analytics.DayLabel`, `Analytics.MonthLabel`). The `'M/d'`
  and `'M/yyyy'` formats and the `$toString` concatenations print month, day and
  year without leading zeros, so they compare equal exactly when the pairs do.

The daily series is grouped in the request's time zone
(`budget.service.ts:175-181`). The monthly series is grouped in UTC
(`budget.service.ts:210-212`). Both are enumerated in the server's zone. The
model keeps the two groupings apart:

- `Analytics.LastMonthTotal` proves that the daily series adds up to the month's
  spend when the request's zone is the server's.
- `Analytics.Last12MonthsTotal` proves that the monthly series adds up to the
  twelve months' spend when the server runs in UTC.
- In other settings a document's key may fall outside the enumerated
  categories. Its price then appears in no bucket.

Three behaviours of the code shape the model:

- `update` has a NotFound branch that never runs
  (`budget.service.ts:282-287`). It tests the promise returned by `exec()`,
  which is always truthy, instead of the document. For an unknown id the call
  resolves to `null`, so `BudgetStore.Update` returns `None` and changes
  nothing.
- The sum in `create` may or may not see the new entry, because `save()` is not
  awaited (`budget.service.ts:29`). The parameter `saveFirst` of
  `BudgetStore.Create` chooses between the two outcomes, and the contract covers
  both.
- `price` may be negative: the schema does not restrict it
  (`src/models/budget.schema.ts:14-15`). The model allows any integer price.

## Model

| member | source | states |
|---|---|---|
| `Calendar.DaysInMonth` | src/modules/budget/budget.service.ts:232-235 | every month has 28 to 31 days |
| `Calendar.MonthsFillYear` | src/modules/budget/budget.service.ts:232-235 | the twelve month lengths add up to 366 in Gregorian leap years and 365 otherwise |
| `Calendar.StartOfMonth` | src/modules/budget/budget.service.ts:31 | the start of the month is a valid instant of that month, no later than any instant of it |
| `Calendar.EndOfMonth` | src/modules/budget/budget.service.ts:32 | the end of the month is a valid instant of that month, no earlier than any instant of it |
| `Calendar.MonthWindow` | src/modules/budget/budget.service.ts:30-33 | an instant lies in the closed window [start of month, end of month] exactly when its local year and month are the current ones |
| `Calendar.MonthRangeWindow` | src/modules/budget/budget.service.ts:155-157 | an instant lies between the start of month `lo` and the end of month `hi` exactly when its month lies in the closed range of months |
| `Calendar.MonthAt` | src/modules/budget/budget.service.ts:244-247 | month numbering is invertible: the month at index n is a valid month with index n |
| `Calendar.MonthAtSucc` | src/modules/budget/budget.service.ts:244-247 | the month at index n+1 is the month after the month at n, December wrapping to January of the next year |
| `Calendar.SubMonths` | src/modules/budget/budget.service.ts:155-157 | stepping back k months gives a valid date exactly k months earlier, whose day is clamped to the length of the month reached |
| `Calendar.SubMonthsWrap` | src/modules/budget/budget.service.ts:155-157 | stepping back up to 12 months keeps the year while the month allows, and otherwise wraps into the previous year |
| `Calendar.EachDayOfMonth` | src/modules/budget/budget.service.ts:232-235 | the enumeration has one valid date per day of the month, in the month, strictly increasing |
| `Calendar.EachDayOfMonthComplete` | src/modules/budget/budget.service.ts:232-235 | every valid date of the month appears, at the position of its day number |
| `Calendar.EachMonthOfInterval` | src/modules/budget/budget.service.ts:244-247 | the month enumeration has one entry per month of the range, starting with the start's month and ending with the end's month |
| `Calendar.EachMonthOfIntervalConsecutive` | src/modules/budget/budget.service.ts:244-247 | consecutive enumerated months are consecutive calendar months, across year boundaries |
| `Calendar.EachMonthOfIntervalAt` | src/modules/budget/budget.service.ts:244-247 | the i-th enumerated month is the start's month plus i |
| `Records.OwnedBy` | src/modules/budget/budget.service.ts:139 | `$match` on `userId` keeps exactly the user's documents |
| `Records.OwnedByCount` | src/modules/budget/budget.service.ts:74 | the user match keeps each of the user's documents as many times as the collection holds it, and no other document |
| `Records.DatedWithin` | src/modules/budget/budget.service.ts:140 | `$match` on the date window keeps exactly the documents whose date lies in the closed window |
| `Records.PriceOfAppend` | src/modules/budget/budget.service.ts:141 | `$sum` over two runs of documents is the sum of their sums |
| `Records.OwnedByIdempotent` | src/modules/budget/budget.service.ts:160 | selecting the user's documents twice is the same as once |
| `Records.BudgetLimitOf` | src/modules/budget/budget.service.ts:145-149 | the reported limit is present exactly when the user exists, and is that user's `budgetLimit` |
| `Records.FindById` | src/modules/budget/budget.service.ts:277-279 | the lookup returns a stored document with the id, and nothing exactly when no document has it |
| `Records.WithoutId` | src/modules/budget/budget.service.ts:291-293 | deleting by id keeps exactly the documents with another id |
| `Records.WithoutIdKeepsUniqueIds` | src/modules/budget/budget.service.ts:291-293 | deleting by id keeps ids unique |
| `Records.ReplaceByIdFinds` | src/modules/budget/budget.service.ts:282-284 | replacing the document with an id keeps ids unique, and a lookup then finds the replacement |
| `Records.ReplaceByIdMembers` | src/modules/budget/budget.service.ts:282-284 | after `findByIdAndUpdate` every document with another id is still there, the replacement is there exactly when some document had the id, and nothing else is |
| `Grouping.Find` | src/modules/budget/budget.service.ts:240 | `find` returns a group with the label, and nothing exactly when no group has it |
| `Grouping.FindIsFirst` | src/modules/budget/budget.service.ts:240 | when several groups could match, `find` returns the first group with the label |
| `Grouping.GapFill` | src/modules/budget/budget.service.ts:239-242 | the gap-filled data is exactly as long as the categories |
| `Grouping.FindAddToGroups` | src/modules/budget/budget.service.ts:188-193 | accumulating a document adds its price to the group of its key, opening the group if absent, and leaves other keys' groups alone |
| `Grouping.GroupSumIdsDistinct` | src/modules/budget/budget.service.ts:217-222 | `$group` (`GroupSum`) yields one group per key |
| `Grouping.PriceWhereWithoutLabel` | src/modules/budget/budget.service.ts:239-242 | a label no document carries has a price sum of 0 |
| `Grouping.FindGroupSum` | src/modules/budget/budget.service.ts:188-193 | `$group` (`GroupSum`) has a group for a label exactly when some document carries it, and that group's price is the sum over those documents |
| `Grouping.FindGroupSumStep` | src/modules/budget/budget.service.ts:188-193 | accumulating one more document keeps the lookup equal to the label's price sum over the documents seen so far |
| `Grouping.GapFillAt` | src/modules/budget/budget.service.ts:239-242 | each gap-filled value is the price sum of the documents with that category, and 0 when there are none |
| `Grouping.SeriesTotal` | src/modules/budget/budget.service.ts:239-242 | with distinct categories that cover every document's label, the series adds up to the documents' total price |
| `Listing.FormattedAs` | src/modules/budget/budget.service.ts:77-96 | the day filter keeps exactly the documents whose rendered date equals the filter string |
| `Listing.FormattedAsCount` | src/modules/budget/budget.service.ts:77-96 | the day filter keeps each matching document as many times as its input holds it, and no other document |
| `Listing.Selected` | src/modules/budget/budget.service.ts:73-96 | the listing's selection is exactly the user's documents, restricted to the rendered day when a non-empty day is given |
| `Listing.SelectedCount` | src/modules/budget/budget.service.ts:73-96 | the selection holds each of the user's documents that passes the day filter as many times as the collection does, and nothing else, so its length (`totalBudgets`) is the number of such documents |
| `Listing.SortNewestFirst` | src/modules/budget/budget.service.ts:100-102 | the sort is ordered by `createdAt` descending and is a permutation of its input |
| `Listing.Page` | src/modules/budget/budget.service.ts:63-71 | with limit 0 the page is everything; otherwise it is the contiguous run starting at (page-1)*limit, at most `limit` long and as long as the input allows |
| `Listing.SecondPageOfTwentyFive` | src/modules/budget/budget.service.ts:63-71 | limit 10, page 2 over 25 documents gives the 11th to the 20th |
| `Listing.RunAppend` | src/modules/budget/budget.service.ts:98-120 | running two stage lists one after the other equals running their concatenation |
| `Listing.Apply` | src/modules/budget/budget.service.ts:98-102 | a stage is rejected only for a negative `$skip` or a non-positive `$limit`, and no stage invents or duplicates a document |
| `Listing.Run` | src/modules/budget/budget.service.ts:98-120 | a successful run of stages returns a sub-multiset of its input |
| `Listing.CountAndPage` | src/modules/budget/budget.service.ts:103-123 | the intended `$facet` (see Findings: an empty paging sub-pipeline means no paging) fails exactly when its paging sub-pipeline does; otherwise it gives at most one row, none exactly for an empty input, and that row counts the whole input |
| `Listing.SkipThenLimit` | src/modules/budget/budget.service.ts:63-71 | `$skip (page-1)*limit` then `$limit limit` is rejected exactly for a negative limit or a page before 1, and otherwise yields the page |
| `Listing.MatchUserRuns` | src/modules/budget/budget.service.ts:73-75 | the user-match stage alone selects exactly the user's documents |
| `Listing.MatchUserAndDayRuns` | src/modules/budget/budget.service.ts:73-96 | the user match followed by the day match selects the user's documents of that rendered day |
| `Listing.FilterThenSort` | src/modules/budget/budget.service.ts:73-102 | the assembled filter stages followed by the sort yield the selection, newest first |
| `Listing.CountAndPageOutcome` | src/modules/budget/budget.service.ts:103-123 | for the intended query (see Findings), `$facet`/`$unwind` gives no row for an empty selection and otherwise one row with the count and the page; it fails exactly when paging is rejected |
| `Listing.FindAllPipeline` | src/modules/budget/budget.service.ts:98-123 | the whole intended `findAll` query (see Findings) yields the sorted selection, and its `$facet` answer is rejected exactly with the paging request and otherwise no row or the count and the page |
| `Listing.CountAndPageAsWritten` | src/modules/budget/budget.service.ts:63-108 | the `$facet` as written is rejected exactly when the paging sub-pipeline is empty or its run is rejected; otherwise it gives no row for an empty input and else one row counting the whole input with the paging sub-pipeline's result |
| `Listing.LimitZeroRejected` | src/modules/budget/budget.service.ts:63-108 | with `limit` 0 the query as written is rejected for every user, day and collection, while the intended query answers the count and every selected document |
| `Listing.AsWrittenAgreesWithPaging` | src/modules/budget/budget.service.ts:63-108 | with any `limit` other than 0 the query as written and the intended one give the same answer |
| `MonthlySpend.WindowTotalRows` | src/modules/budget/budget.service.ts:138-143 | the one-group sum returns at most one row |
| `MonthlySpend.CurrentMonthTotal` | src/modules/budget/budget.service.ts:138-148 | when no document of the user lies in the current month the reported sum is 0 (`|| 0`) |
| `MonthlySpend.PriceOfWindowIsSpentInMonth` | src/modules/budget/budget.service.ts:138-142 | the pipeline's price sum equals the independently defined spend of the user in the current local month |
| `MonthlySpend.CurrentMonthTotalIsSpend` | src/modules/budget/budget.service.ts:138-148 | the reported sum is the user's spend in the current month, and 0 when nothing matches |
| `MonthlySpend.OtherUsersDoNotCount` | src/modules/budget/budget.service.ts:139 | adding documents of other users never changes a user's sum |
| `MonthlySpend.AddedEntry` | src/modules/budget/budget.service.ts:38-43 | adding a current-month document of the user raises the sum by its price; any other document leaves it unchanged |
| `MonthlySpend.CreateSummary` | src/modules/budget/budget.service.ts:30-52 | `isCurrentMonth` is the closed-window test; when it is false the total is 0 and there is no limit; when it is true the total is the current-month sum and the limit is the user's |
| `MonthlySpend.CreateSummaryFlag` | src/modules/budget/budget.service.ts:30-33 | the entry counts as current exactly when its local year and month are the current ones |
| `MonthlySpend.CreateCountsNewEntry` | src/modules/budget/budget.service.ts:37-49 | when the sum sees a new entry dated this month, the total is the earlier sum plus its price and the limit is reported |
| `MonthlySpend.CreateSummarySpend` | src/modules/budget/budget.service.ts:27-52 | whichever way the race went, the summary is current exactly when the entry is dated this month, and its total is then the user's spend this month, counting the entry exactly when the sum saw it |
| `MonthlySpend.CheckLimit` | src/modules/budget/budget.service.ts:133-151 | `checkLimit` always reports the user's limit, absent when the user does not exist |
| `MonthlySpend.CheckLimitTotal` | src/modules/budget/budget.service.ts:133-151 | `checkLimit`'s total is the user's spend in the current month |
| `MonthlySpend.CheckLimitExample` | src/modules/budget/budget.service.ts:138-150 | a user with limit 500 and entries of 100 and 250 this month is told 350 of 500, whatever other users spent |
| `Analytics.SliceFrom` | src/modules/budget/budget.service.ts:256-257 | `slice(k)` has `|s| - k` elements, none when the array is shorter than k, and its i-th element is the array's element k + i |
| `Analytics.DayLabelsIdentifyDays` | src/modules/budget/budget.service.ts:236-238 | within one year the `'M/d'` label of a day identifies it |
| `Analytics.MonthLabelsIdentifyMonths` | src/modules/budget/budget.service.ts:248-250 | the `'M/yyyy'` label identifies its month |
| `Analytics.DayCategories` | src/modules/budget/budget.service.ts:232-238 | there is one daily category per day of the previous month |
| `Analytics.MonthCategories` | src/modules/budget/budget.service.ts:244-250 | there are exactly 12 monthly categories |
| `Analytics.GetAnalytics` | src/modules/budget/budget.service.ts:154-274 | the daily series has categories and data of the previous month's length, the monthly series 12 and the six-month series 6; the limit is the user's `budgetLimit`, absent exactly when the user does not exist |
| `Analytics.LastMonthSeries` | src/modules/budget/budget.service.ts:232-242 | daily categories are days 1..n of the previous month in order; each value is the price of the user's documents of that month whose zone-rendered label is that day, 0 when there are none |
| `Analytics.Last12MonthsSeries` | src/modules/budget/budget.service.ts:244-254 | 12 monthly categories, oldest first, each the month after the previous one, the last being the previous month; each value is the price of the window's documents whose UTC month is that month, 0 when there are none |
| `Analytics.Last6MonthsIsTail` | src/modules/budget/budget.service.ts:256-257 | the six-month categories and data are exactly the last six entries of the twelve-month ones |
| `Analytics.NoDocumentsAllZero` | src/modules/budget/budget.service.ts:239-254 | a user without documents gets full-length series of zeros |
| `Analytics.OnlyOwnDocumentsMatter` | src/modules/budget/budget.service.ts:159-160 | the report depends only on the user's own documents |
| `Analytics.DayCategoriesCover` | src/modules/budget/budget.service.ts:169-187 | daily categories are distinct and, in the server's zone, every document of the previous month has one of them |
| `Analytics.MonthCategoriesCover` | src/modules/budget/budget.service.ts:206-216 | monthly categories are distinct and, with local months, every document of the window has one of them |
| `Analytics.MonthCategoriesDistinct` | src/modules/budget/budget.service.ts:244-250 | no month is enumerated twice |
| `Analytics.LastMonthTotal` | src/modules/budget/budget.service.ts:163-242 | when the request's zone is the server's, the daily data adds up to the user's spend in the previous month |
| `Analytics.Last12MonthsTotal` | src/modules/budget/budget.service.ts:200-254 | when the server runs in UTC, the monthly data adds up to the user's spend in the twelve months |
| `BudgetService.Patched` | src/modules/budget/budget.service.ts:282-284 | an update never changes a document's id, owner or creation time |
| `BudgetService.BudgetStore.Create` | src/modules/budget/budget.service.ts:27-54 | the entry is appended with a fresh id, ids stay unique and dates valid; the summary is `create`'s summary over the collection with or without the new entry, as the race went; it is current exactly when the entry is dated this month, and its total is then the user's spend this month, plus the entry's price exactly when the sum saw it |
| `BudgetService.BudgetStore.FindAll` | src/modules/budget/budget.service.ts:56-131 | follows the intended query (see Findings), so `limit` 0 lists everything; fails exactly on rejected paging; otherwise echoes the page, counts the whole selection regardless of paging (its length is the number of matching documents by `Listing.SelectedCount`), and lists the requested page of the selection sorted newest first, as stored documents (without the `dateFormatted` field a day filter adds) |
| `BudgetService.BudgetStore.FindOne` | src/modules/budget/budget.service.ts:277-279 | returns a stored document with the id, and nothing exactly when none has it |
| `BudgetService.BudgetStore.Update` | src/modules/budget/budget.service.ts:281-289 | a missing id returns nothing and changes nothing; otherwise the document is replaced by its patched version, which is returned and found afterwards, and ids stay unique |
| `BudgetService.BudgetStore.Remove` | src/modules/budget/budget.service.ts:291-293 | returns the document with the id, or nothing without error; afterwards no document has that id and ids stay unique |

## Left out

- MongoDB and Mongoose internals (`aggregate`, `$facet`, `$unwind`, `lean`, `exec`): each pipeline is a function over the document sequence. Store failures other than a rejected `$skip`/`$limit` or an empty `$facet` sub-pipeline (connection loss, other query errors) are not modelled.
- The conversion of `userId` strings to `ObjectId` is not modelled: ids are plain numbers, and a malformed id string, which makes the driver throw, is not modelled.
- The `$sort: { _id: 1 }` of the daily groups is left out. The series take their order from the calendar enumeration, and keys are unique (`Grouping.GroupSumIdsDistinct`), so the sort cannot change a result.
- Real time zones and date-fns formatting are not modelled. The three renderings are function parameters. Daylight-saving overlaps, where local times repeat, are not modelled: instants are ordered by local day and time of day.
- Parsing of a payload's date string (`new Date(...)`), including invalid dates, is not modelled: the payload carries an instant. `BudgetStore.Create` and `BudgetStore.Update` require that instant to be a real date, since Mongoose refuses to store an invalid one, and the store keeps every stored date valid.
- `'M/yyyy'` pads years below 1000 to four digits while `$year` does not. Labels are pairs, so this difference for years before 1000 is not modelled.
- Prices are integers: JavaScript floating-point sums and `NaN` are not modelled. `|| 0` therefore only replaces a missing value.
- `Listing.CountAndPage`: answers an empty paging sub-pipeline with the whole input, the evident intent of the conditional push; MongoDB rejects that `$facet`, which `Listing.CountAndPageAsWritten` models (see Findings).
- `Listing.CountAndPageOutcome`: states the intended answer for `limit` 0, not the rejection of the query as written (see Findings).
- `Listing.FindAllPipeline`: states the intended answer for `limit` 0, not the rejection of the query as written (see Findings).
- `BudgetService.BudgetStore.FindAll`: with `limit` 0 it lists the whole selection, as the code evidently intends; the query as written is rejected (`Listing.LimitZeroRejected`).
- `BudgetService.BudgetStore.FindAll`: with a day filter, `findAll` returns each document with the extra `dateFormatted` field that `$addFields` adds (budget.service.ts:80-88), equal to the filter string; the model lists the stored documents without it.
- `Listing.SortNewestFirst`: MongoDB leaves the order of documents with equal `createdAt` unspecified; the model fixes one order (store order among ties).
- `Calendar.EachDayOfMonth`: models `eachDayOfInterval` only over one whole calendar month, its only use here.
- `Calendar.EachMonthOfInterval`: requires the start to be no later than the end, which every call here satisfies.
- The update payload's class (`dto/update-budget.dto`) is not part of this model. The patch is modelled as optional `name`, `price` and `date`.
- Request validation, controllers, authentication (`auth.service.ts`), the user service beyond `findById`, password hashing (`user.schema.ts`), logging middleware, bootstrap and configuration are not modelled.
- Concurrency between requests is not modelled beyond the race in `create`, which is a parameter.

## Findings

| source | as written | input that shows it | evidently intended | confidence | as-written member | corrected member |
|---|---|---|---|---|---|---|
| src/modules/budget/budget.service.ts:63-108 | with `limit` 0 no paging stage is pushed, so `$facet` receives `stage2: []`, a sub-pipeline MongoDB's `$facet` validation refuses as empty; every such `findAll` is a rejected query | `findAll(0, 1, '', tz, userId)` for any user and collection | `limit` 0 means no paging: the whole selection is listed with its count | not executed; rests on MongoDB's rule that a `$facet` sub-pipeline cannot be empty | `Listing.LimitZeroRejected` | `Listing.CountAndPageOutcome` |
