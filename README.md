# Monthly finance tracker: month-view core

This project models the one part of the finance tracker that has real logic: building the view of the current month from the user's transaction templates (`App.tsx`, with the records declared in `types.ts`). In order, that work is:

1. **Occurrence expansion.** Each template becomes the dated instances that fall in the viewed month. A one-time (`'none'`) template gives at most one instance, on its own date. A daily, weekly or monthly template is stepped forward from its anchor date until it passes the month's last day. Only the steps on or after the month's first day are kept. A monthly step goes to the next calendar month, on the anchor day clamped to that month's length.
2. **Status classification.** A recurring instance is `paid` if its date is in the template's `processedDates`. Otherwise it is `pending` if it is due (on or before today), and `future` if not. One-time instances are always `paid`.
3. **Aggregation and display order.** Income and expense totals are summed over the paid instances. `savings` is income minus expenses. The list is sorted newest first by a stable sort.
4. **Recording a decision.** `processTransaction` adds the instance date to the owning template's `processedDates` unless it is already there. Confirm and skip do the same thing.
5. **Template list and confirmation state.** This covers load-time defaulting of old records, adding a template, replacing one by id, and the single outstanding confirmation. That confirmation is the first pending instance in display order, and it is set only when none is outstanding. Confirm and skip clear it.

Modules, one per component:

- `Calendar` (`calendar.dfy`): local calendar dates, leap years, month lengths, chronological order, the next day, adding days, and the clamped next-month step.
- `Types` (`types.dfy`): `Transaction`, `DisplayTransaction` (the template unchanged, plus `instanceDate` and `status`) and the closed `Kind`, `Recurrence` and `Status` variants. `Recurrence.Once` is the source's `'none'`.
- `Expansion` (`expansion.dfy`): the expansion loop as methods, with the specification functions they are proved equal to (`Walk`, `Tag`, `Instances`, `Generated`).
- `ExpansionFacts` (`expansion_facts.dfy`): what the expansion guarantees, proved about those functions.
- `Summary` (`summary.dfy`): the totals and the newest-first stable sort.
- `Ledger` (`ledger.dfy`): `processTransaction`, load defaulting, add and update, as copy-on-write functions over the list.
- `Tracker` (`tracker.dfy`): the whole month view, the first-pending selection, and the `FinanceTracker` class. The class's `transactions` and `pendingConfirmation` fields are the application state that the source updates step by step.

Inputs that the source reads from its environment are parameters here. These are `today`, the viewed year and month, and the id of a new template.

Amounts are integers in minor currency units, so sums are exact.

Two details of `processTransaction` shape the model:

- `processedDates` is an array. `processTransaction` appends a date only if it is absent.
- `processTransaction` maps over the whole list and updates every template whose id matches.

## Model

| member | source | states |
|---|---|---|
| Calendar.DaysInMonth | App.tsx:124 | a month has 28 to 31 days, and February has 29 exactly in leap years |
| Calendar.FirstOfMonth | App.tsx:73 | `firstDayOfMonth` is a valid date of the month and is on or before every date of that month |
| Calendar.LastOfMonth | App.tsx:74 | `lastDayOfMonth` is a valid date of the month and is on or after every date of that month |
| Calendar.InMonthWindow | App.tsx:73-74 | a valid date lies between the first and last day of a month exactly when its year and month are that month's |
| Calendar.StampIsChronological | App.tsx:93-94 | the date comparisons of the loop are calendar order on (year, month, day), and equal instants are equal dates |
| Calendar.NextDay | App.tsx:116 | `setDate(getDate() + 1)` gives a valid date strictly later than the current one |
| Calendar.NextDayIsImmediate | App.tsx:116 | no valid date lies strictly between a date and its next day, so daily stepping skips nothing |
| Calendar.AddDays | App.tsx:116-119 | adding days gives a valid date, later than the start for a positive count |
| Calendar.AddDaysAdd | App.tsx:119 | adding `a` days and then `b` days is adding `a + b` days |
| Calendar.AddDaysWithinMonth | App.tsx:116-119 | adding days that stay within the month only advances the day of the month |
| Calendar.AddDaysLeavesMonth | App.tsx:118-119 | adding more days than remain in the month lands after the month's last day, which is what ends the loop |
| Calendar.NextMonthClamped | App.tsx:123-124 | the monthly step lands exactly one calendar month later, on day `min(anchorDay, daysIn(month))`, and is a valid date later than the current one |
| Expansion.Step | App.tsx:114-126 | each of the three recurring steps gives a valid, strictly later date, so the loop always advances |
| Expansion.Nth | App.tsx:114-126 | after `k` steps the date is valid, never before the starting date, and strictly after it once `k > 0` |
| Expansion.Classify | App.tsx:96-105 | exactly one status holds: paid iff the date is processed, pending iff unprocessed and on or before today, future iff unprocessed and after today |
| Expansion.Tag | App.tsx:107-111 | each recurring instance carries the template unchanged, its own date, and the classified status of that date |
| Expansion.ExpandTemplate | App.tsx:79-128 | the loop that steps from the anchor and pushes instances produces exactly `Instances` of the template for the month |
| Expansion.GenerateInstances | App.tsx:76-129 | the `forEach` over the templates produces every template's instances, concatenated in template order |
| ExpansionFacts.WalkInWindow | App.tsx:92-127 | kept dates are valid, lie in `[firstDayOfMonth, lastDayOfMonth]`, are never before the anchor, and strictly increase |
| ExpansionFacts.WalkOnlySteps | App.tsx:92-127 | every kept date is the anchor advanced by some number `k >= 0` of steps |
| ExpansionFacts.WalkKeepsSteps | App.tsx:92-127 | every step of the recurrence that lands in the month is kept, including steps computed from an anchor before the month |
| ExpansionFacts.WalkMembership | App.tsx:92-127 | a date is kept iff it is the anchor plus `k >= 0` steps and lies in the month window |
| ExpansionFacts.DailyNth | App.tsx:115-117 | the k-th daily step is the anchor plus `k` days |
| ExpansionFacts.WeeklyNth | App.tsx:118-120 | the k-th weekly step is the anchor plus `7k` days, so the weekday is kept |
| ExpansionFacts.DailyWalkComplete | App.tsx:115-117 | daily stepping reaches every valid date of the month from the anchor on |
| ExpansionFacts.DailyWalkExact | App.tsx:115-117 | a daily template's dates are exactly the valid dates of the month on or after its anchor |
| ExpansionFacts.MonthlyNth | App.tsx:121-125 | the k-th monthly step is `k` months after the anchor, on the anchor day clamped to that month, so a clamped February does not drift into March |
| ExpansionFacts.MonthlyWalkInMonth | App.tsx:121-125 | in any month not before the anchor's, a monthly template yields exactly one date, `min(anchorDay, daysIn(month))`; in earlier months it yields none |
| ExpansionFacts.OnceInstances | App.tsx:82-90 | a one-time template yields exactly one instance iff its date's year and month are the viewed ones; that instance has the template's date and is paid whatever the processed dates say |
| ExpansionFacts.InstancesInMonth | App.tsx:82-112 | every instance of every template carries the template unchanged, is dated in the viewed month, is not before the anchor, and recurring instances are in increasing date order |
| ExpansionFacts.InstanceStatus | App.tsx:88-105 | every instance is paid iff one-time or processed; otherwise pending iff due by today, and future iff not yet due |
| ExpansionFacts.RecurringInstanceDates | App.tsx:92-127 | a recurring template has an instance on date `d` iff `d` is the anchor plus `k >= 0` steps and falls in the viewed month |
| ExpansionFacts.WeeklyWithinMonth | App.tsx:118-120 | a weekly template whose anchor has three more weeks left in its month, but not four, yields in that month exactly the anchor and the three following same-weekday dates |
| ExpansionFacts.WeeklyScenario | App.tsx:118-120 | a weekly template anchored Wednesday 2024-03-06 has exactly four instances in March 2024, on the 6th, 13th, 20th and 27th |
| ExpansionFacts.MonthlyClampScenario | App.tsx:121-125 | a monthly template anchored 2024-01-31 shows on 2024-02-29 in February and on 2024-04-30 in April |
| Summary.Aggregate | App.tsx:131-145 | the returned savings is exactly income minus expenses |
| Summary.AggregateIsPaidSums | App.tsx:131-145 | total income and total expenses are the sums of `amount` over paid instances of that kind, and an empty list gives all zeros |
| Summary.PaidPartition | App.tsx:133-139 | income and expense split the paid instances, so every paid amount is counted in exactly one total |
| Summary.PaidSumNonNegative | App.tsx:133-139 | with positive amounts, neither total is negative |
| Summary.PaidSumPermutation | App.tsx:133-139 | summation order does not matter: the same instances in any order give the same paid sums |
| Summary.AggregatePermutation | App.tsx:131-145 | lists holding the same instances have the same three totals |
| Summary.InsertByDate | App.tsx:142 | inserting an instance adds exactly that instance to the list's contents |
| Summary.InsertKeepsOrder | App.tsx:142 | inserting into a newest-first list keeps it newest first |
| Summary.SortNewestFirst | App.tsx:142 | the display list is a permutation of the generated list, ordered newest first |
| Summary.SortIsStable | App.tsx:142 | instances with the same date keep their generation order |
| Summary.SortedTotals | App.tsx:131-146 | the totals shown are those of the displayed list: sorting does not change them |
| Ledger.Migrate | App.tsx:30-34 | a loaded record always ends up with processed dates present |
| Ledger.Load | App.tsx:29-34 | loading repairs each record on its own and keeps the list's length and order |
| Ledger.MigrateDefaults | App.tsx:30-34 | defaulting keeps every present field, turns a missing recurrence into one-time and missing processed dates into an empty list |
| Ledger.StoreLoadRoundTrip | App.tsx:30-34 | saving and reloading a template with processed dates gives it back unchanged, and defaulting an already repaired record changes nothing |
| Ledger.Record | App.tsx:152-157 | only the processed dates change; afterwards they contain the date, appended once if it was absent and untouched if it was present |
| Ledger.ProcessTransaction | App.tsx:149-161 | the list keeps its length and order; templates with another id are unchanged; those with the instance's id change only in their processed dates, which gain the instance date; no other date's processed state changes |
| Ledger.ProcessIdempotent | App.tsx:149-161 | recording a decision twice, with any actions and with any two instances that share the template id and the instance date (the stored confirmation and the list item), equals recording it once |
| Ledger.ConfirmEqualsSkip | App.tsx:163-171 | confirm and skip produce identical template lists |
| Ledger.ProcessGrowsLedger | App.tsx:153-157 | processed dates only grow: the old list is a prefix of the new one, at most one date is added, and no duplicate is introduced |
| Ledger.ProcessedInstanceIsPaid | App.tsx:149-161 | after a decision, re-expanding the month shows that template's instance on the decided date as paid |
| Ledger.AddTransaction | App.tsx:187-194 | adding appends one template after the unchanged list, with the given id, the entered fields and empty processed dates |
| Ledger.AddedTemplateUnsettled | App.tsx:191 | a newly added recurring template has no paid instance |
| Ledger.UpdateTransaction | App.tsx:196-199 | the list keeps its length, and each position holds the edited template if the ids match and the old one otherwise |
| Ledger.UpdateProperties | App.tsx:197 | replacing twice equals replacing once, and an id not in the list leaves the list unchanged |
| Tracker.BuildMonthView | App.tsx:67-147 | the view's list is the generated instances sorted newest first (same contents, ordered), and its totals are the aggregate of the generated instances, with savings equal to income minus expenses |
| Tracker.FirstPendingAt | App.tsx:175 | returns the index of the first pending instance, or the length of the list when none is pending |
| Tracker.FirstPending | App.tsx:175 | `find` returns nothing iff no instance is pending, and otherwise the first pending instance in list order |
| Tracker.GeneratedFromTemplates | App.tsx:78-129 | every generated instance is an instance of one of the templates |
| Tracker.SurfacedIsDue | App.tsx:174-177 | the instance surfaced for confirmation is recurring, unprocessed, dated on or before today, and in the viewed month |
| Tracker.DecisionAddsAmountOnce | App.tsx:149-161 | recording a decision on an unpaid instance raises that template's paid total of its own kind by exactly its amount, once, and leaves the other kind's total unchanged |
| Tracker.GeneratedPaidSumChange | App.tsx:78-139 | when one template's instances gain `delta` in a kind's paid sum and the other templates are unchanged, the whole generated list gains exactly `delta` in that kind |
| Tracker.DecisionRaisesPaidSum | App.tsx:131-161 | when the template's id is unique, recording a due instance raises the generated list's paid sum of each kind by the template's amount exactly when the kind is the template's own |
| Tracker.DecisionRaisesMonthTotals | App.tsx:131-161 | when the template's id is unique, recording a due instance raises the month's total of the template's kind by exactly its amount, leaves the other total unchanged, and moves savings by the same amount |
| Tracker.PendingThenConfirmedScenario | App.tsx:96-105 | on 2024-06-10, a daily template anchored 2024-06-01 has a pending instance on 2024-06-05, which is paid after it is recorded |
| Tracker.FinanceTracker.constructor | App.tsx:24-41 | the initial state is the stored records with defaulting applied, and no confirmation is outstanding |
| Tracker.FinanceTracker.View | App.tsx:67-147 | the view lists the current templates' instances for the month, newest first, with the totals of those instances |
| Tracker.FinanceTracker.RefreshPending | App.tsx:174-185 | an outstanding confirmation is kept; otherwise the first pending instance of the view becomes the outstanding one, if there is one |
| Tracker.FinanceTracker.ConfirmTransaction | App.tsx:163-166 | the decision is recorded and the outstanding confirmation is cleared |
| Tracker.FinanceTracker.SkipTransaction | App.tsx:168-171 | the same ledger update as confirming, and the outstanding confirmation is cleared |
| Tracker.FinanceTracker.AddNew | App.tsx:187-194 | the template list becomes the list with the new template appended |
| Tracker.FinanceTracker.Update | App.tsx:196-199 | the template list becomes the list with the edited template replacing those with its id |

## Left out

- Persistence is not modelled: the `localStorage` reads and writes, `JSON.parse` and `JSON.stringify`, and the saved currency. Only two pieces are modelled: the record that saving writes (`Ledger.Store`) and the per-record defaulting applied on load (`Ledger.Migrate`).
- Ledger.Load: in the source, an entry that the defaulting cannot read (a `null` entry), or a parsed value that is not an array, makes the whole load fail, and the list starts empty. The model's input is a list of well-typed records, so it excludes such entries and does not capture this fallback.
- Recurrence tags other than the four known values are not modelled. A stored record could hold one, and the source's loop would then never advance. Here `Recurrence` is closed.
- Times and time zones are not modelled. All dates are local calendar dates at midnight. This leaves out the effects of parsing `"YYYY-MM-DD"` as UTC, of `setHours`, and of `toISOString().split('T')[0]`.
- Processed dates are stored as ISO date strings in the source. Here they are dates.
- Date comparison uses `Calendar.Stamp`, a number that orders valid dates as their midnight timestamps do (`Calendar.StampIsChronological`). The model has no millisecond clock.
- Years are unbounded integers. JavaScript's `Date` range limit is not modelled.
- The clock (`new Date()`) and `crypto.randomUUID` are inputs: `today`, the month and the new id are parameters.
- Amounts are not floating point. They are integers in minor units, so rounding is not modelled.
- The notification API and its permission request are left out. They are fire-and-forget side effects.
- React hooks, memoisation and rendering are left out, as are the list, modal, summary card and pie chart components. They are presentation only.
- Currency and date formatting (`Intl.NumberFormat`, `toLocaleDateString`) are left out. They are library calls.
- The entry form's validation is left out. Its guarantees (positive amount, non-empty description, valid date) are preconditions (`Types.WellFormed`, `Types.WellFormedEntry`). The core itself only needs valid anchor dates (`FinanceTracker.Valid`).
- Summary.SortNewestFirst: the engine's `Array.prototype.sort` is modelled as a stable insertion sort. Stability (`Summary.SortIsStable`) and newest-first order fix the result, but the model does not prove that every stable sort gives this same list.
- Tracker.DecisionRaisesMonthTotals: states the month-level effect only when the template's id is unique, as `crypto.randomUUID` ids are. With duplicate ids, every matching template is updated. The per-template effect is still stated by `Tracker.DecisionAddsAmountOnce`.
