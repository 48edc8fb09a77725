# Personal finance app: transactions core in Dafny

This project models the transaction-handling core of a React Native
personal-finance app and proves properties of that model. The core consists of:

- **The `Transaction` record.** It has five fields, and its amount is carried as a string.
- **The transaction store.** This is a reducer over `{ transactions, loading }`, plus a provider. The provider's `fetchAll`, `addTransaction`, `updateTransaction` and `removeTransaction` call the gateway and then dispatch actions in a fixed order.
- **The gateway.** It checks the `{ status, data }` envelope. Its add, update and delete calls are local stubs.
- **The transactions screen.** This is the effect that filters, sorts, pages and totals the list, together with the infinite-scroll `loadMore`, the category list and the sort toggle.
- **The add/edit modal form.** It validates its fields, builds the transaction, and resets its fields from the edited transaction.
- **The "Add New Transaction" panel.** Its picker choices, its weaker check, and its submit-and-clear.
- **The bar chart.** It groups amounts by `DD/MM` day, sorts the day labels, reads the bars, and sizes the chart.

JavaScript semantics that the core relies on are modelled explicitly in three helper modules:

- **`JsText`**:
  - `String.prototype.trim` with the ECMAScript whitespace set;
  - `split` on one character;
  - `Number(string)` for signed decimal literals, with NaN written `None`;
  - `Date.now().toString()`.
- **`Seqs`**:
  - `filter`;
  - the first-insertion key order of `Set` and `Map`.
- **`Sorting`**: `Array.prototype.sort`, which is required to be stable since ES2019, with a key-difference comparator.

Amounts are exact `real`s. `Number(x) || 0` is `NumberOrZero`.

Module layout, one file each:

| module | file |
|---|---|
| `Seqs` | `seqs.dfy` |
| `JsText` | `js_text.dfy` |
| `Sorting` | `sorting.dfy` |
| `TransactionModel` | `transaction.dfy` |
| `TransactionsApi` | `transactions_api.dfy` |
| `TransactionsContext` | `transactions_context.dfy` |
| `TransactionsScreen` | `transactions_screen.dfy` |
| `TransactionChart` | `transaction_chart.dfy` |
| `TransactionForm` | `transaction_form.dfy` |
| `TransactionActions` | `transaction_actions.dfy` |

The code is imperative where the source is:

- **The store.** `TransactionStore` is a class with `transactions`/`loading` fields. Every operation dispatches through `Reducer`.
- **The screen's totals.** `forEach` becomes the loop in `ComputeTotals`, proved against `CategoryTotals`/`SumAmounts`.
- **The screen's state.** A `TransactionsScreen` class holds it.
- **The chart's grouping.** The `Map` accumulator becomes the loop in `GroupByDay`, proved against `DayTotals`/`LabelsByArrival`.
- **The two forms.** Each is a class whose fields are the component's `useState` values.

Where the code and its written description differ, the model follows the code:

- **Screen sort key.** The screen's effect does not sort by the declared `date`. It sorts by an undeclared `transaction_date` property when a row happens to carry one, and otherwise by `Number(id)`. The model makes the property a parameter `datedAt` and uses `Number(id)` when it is absent.
- **Grand total.** `grandTotal` is accumulated directly rather than summed from `categoryTotals`. The two are proved equal for the per-category dictionary the loop is meant to build (`ComputeTotals`, `TotalsBySum`). The code builds it on a plain object `{}`, where a category named after a member of `Object.prototype` breaks the equality (see Findings). `ObjectTotals` models that object as written.

## Model

| member | source | states |
|---|---|---|
| TransactionModel.SumIfConcat | src/screens/TransactionsScreen.tsx:113-118 | The sum of the selected amounts over a concatenation is the sum over each part. |
| TransactionModel.AmountOf | src/screens/TransactionsScreen.tsx:115 | Definition over the `Transaction` record, which has exactly the five fields of src/models/Transaction.ts:1-7, with its amount as a string: `Number(t.transaction_amount) \|\| 0`, the amount every total reads. `NumberOrZero` and `ParseNumberReadsTrimmed` give its meaning. |
| TransactionModel.SumIf | src/screens/TransactionsScreen.tsx:113-118 | Definition: the running `sum +=` over the selected transactions, first to last. `SumIfConcat` and `SumIfSnoc` state its laws. |
| TransactionModel.TotalsBy | src/screens/TransactionsScreen.tsx:113-118 | Definition: the record a `forEach` builds by adding each counted amount to its key's entry. `TotalsByKeys`, `TotalsByValue` and `TotalsBySum` state what it holds. |
| TransactionModel.SumIfSnoc | src/screens/TransactionsScreen.tsx:115-117 | Visiting one more transaction adds its `Number(amount) \|\| 0` exactly when it is selected. |
| TransactionModel.TotalsBySnoc | src/screens/TransactionsScreen.tsx:113-118 | One `forEach` step updates only the visited transaction's key, to its previous value or 0 plus the amount. The key is listed last. |
| TransactionModel.KeyArrivalSnoc | src/components/TransactionChart.tsx:33-37 | The first-insertion key order gains the visited key at the end exactly when it is counted and had no entry yet. |
| TransactionModel.TotalsByKeys | src/screens/TransactionsScreen.tsx:113-118 | A key has an entry exactly when some counted transaction carries it. The visiting-order key list contains the same keys. |
| TransactionModel.TotalsByValue | src/screens/TransactionsScreen.tsx:113-118 | Each entry equals the sum of the amounts of the counted transactions with that key. |
| TransactionModel.TotalsBySum | src/screens/TransactionsScreen.tsx:112-121 | The entries add up, in any order, to the sum over all counted transactions. |
| TransactionModel.MapSumRemove | src/screens/TransactionsScreen.tsx:120-121 | The sum of a record's values does not depend on the order in which keys are taken. |
| JsText.TrimStart | src/components/TransactionForm.tsx:30 | `trim` removes exactly a leading run of whitespace, and the result is a suffix that does not start with whitespace. |
| JsText.TrimEnd | src/components/TransactionForm.tsx:30 | `trim` removes exactly a trailing run of whitespace, and the result is a prefix that does not end with whitespace. |
| JsText.Trim | src/components/TransactionForm.tsx:30 | The result is no longer than the input, and when it is non-empty it neither starts nor ends with whitespace. |
| JsText.IsBlank | src/components/TransactionForm.tsx:30 | Definition: `!s.trim()`. `BlankIffAllWhitespace` states which strings it holds for. |
| JsText.BlankIffAllWhitespace | src/components/TransactionForm.tsx:30 | `!s.trim()` holds exactly when every character of `s` is whitespace. |
| JsText.NotBlankIsNonEmpty | src/components/TransactionForm.tsx:35 | A string that is not blank after trimming is not empty. |
| JsText.Split | src/components/TransactionChart.tsx:30 | `split` gives at least one piece. No piece contains the separator, and joining the pieces gives back the string. |
| JsText.SplitJoined3 | src/components/TransactionChart.tsx:30 | Three separator-free parts joined by the separator split back into exactly those parts. |
| JsText.SplitHead | src/components/TransactionForm.tsx:42 | The first piece of `a + sep + b` is `a` when `a` has no separator. |
| JsText.ParseNumberReadsTrimmed | src/screens/TransactionsScreen.tsx:115 | `Number` ignores whitespace at both ends and reads what `trim` leaves. |
| JsText.ParseNumber | src/screens/TransactionsScreen.tsx:115 | Definition: `Number(s)` on a string, with NaN written `None`. `ParseNumberReadsTrimmed`, `ParseDigits` and `NumberOfNatToString` state what it reads. |
| JsText.NumberOrZero | src/screens/TransactionsScreen.tsx:115 | Definition: `Number(s) \|\| 0`, where NaN and zero both give 0. |
| JsText.ParseDigits | src/components/TransactionChart.tsx:38 | A non-empty string of decimal digits reads as its decimal value. |
| JsText.NatToString | src/api/transactionsApi.ts:13 | `toString` of a non-negative integer is a non-empty digit string without a leading zero, unless the value is 0. |
| JsText.DigitsOfNatToString | src/api/transactionsApi.ts:13 | The digits of `n.toString()` have the value `n`. |
| JsText.NumberOfNatToString | src/api/transactionsApi.ts:13 | `Number(n.toString())` is `n` (round trip). |
| Seqs.Filter | src/screens/TransactionsScreen.tsx:94 | The result is no longer than the input, and every kept element occurs in the input and satisfies the predicate. |
| Seqs.FilterConcat | src/screens/TransactionsScreen.tsx:94 | Filtering distributes over concatenation, so relative order is preserved. |
| Seqs.FilterCount | src/context/TransactionsContext.tsx:52 | Each value satisfying the predicate keeps its number of occurrences, and every other value drops to none. |
| Seqs.FilterMember | src/screens/TransactionsScreen.tsx:94 | A value is kept exactly when it occurs and satisfies the predicate. |
| Seqs.FilterKeepsAll | src/context/TransactionsContext.tsx:52 | When every element satisfies the predicate, `filter` is the identity. |
| Seqs.FirstAppearances | src/screens/TransactionsScreen.tsx:151-153 | `Array.from(new Set(xs))` has no duplicates and contains exactly the elements of `xs`. |
| Seqs.FirstAppearancesOrdered | src/screens/TransactionsScreen.tsx:151-153 | Distinct values appear in the order of their first occurrence. |
| Seqs.FilterKeepsFirstOccurrenceOrder | src/screens/TransactionsScreen.tsx:152 | Filtering keeps the order in which two kept values first occur. |
| Seqs.FirstAppearancesSnoc | src/components/TransactionChart.tsx:33-37 | Inserting a key appends it only when it is new, as `Map` key order does. |
| Seqs.IndexOfPrefix | src/screens/TransactionsScreen.tsx:151-153 | The first position of a value that occurs in a prefix is the same in the whole list. |
| Seqs.NoDupsPermutation | src/components/TransactionChart.tsx:37 | A permutation of a duplicate-free list is duplicate-free. |
| Sorting.SortBy | src/screens/TransactionsScreen.tsx:97-106 | The sort is a permutation of its input, ordered by key in the requested direction. |
| Sorting.SortStable | src/screens/TransactionsScreen.tsx:97-106 | Elements with equal keys keep their relative order. |
| Sorting.SortSortedIsIdentity | src/screens/TransactionsScreen.tsx:133-135 | A list that is already ordered is left exactly as it is. |
| Sorting.SortIdempotent | src/screens/TransactionsScreen.tsx:133-135 | Sorting twice with the same comparator equals sorting once. |
| Sorting.SortAgainstOrderReverses | src/screens/TransactionsScreen.tsx:97-106 | A list whose keys run strictly against the requested direction comes out reversed. |
| Sorting.InsertSorted | src/screens/TransactionsScreen.tsx:97-106 | Inserting into a sorted list keeps it sorted. |
| Sorting.FilterInsert | src/screens/TransactionsScreen.tsx:97-106 | Inserting an element keeps the relative order of each key's elements, with the new element first among its equals. |
| TransactionsApi.FetchTransactions | src/api/transactionsApi.ts:8 | The result is `json.data` when the status is exactly "success", and the empty list otherwise. |
| TransactionsApi.AddTransaction | src/api/transactionsApi.ts:12-14 | The copy equals the input in every field except `id`, which is the current time in decimal. |
| TransactionsApi.AddedIdIsCreationTime | src/api/transactionsApi.ts:13 | The fabricated id reads back with `Number` as the creation time. |
| TransactionsApi.UpdateTransaction | src/api/transactionsApi.ts:16-18 | Returns its argument unchanged. |
| TransactionsApi.DeleteTransaction | src/api/transactionsApi.ts:20-22 | Returns the id it was given. |
| TransactionsContext.ReplaceById | src/context/TransactionsContext.tsx:45-47 | The length is kept. Each position holds the payload when its id matches, and otherwise its old element. |
| TransactionsContext.RemoveById | src/context/TransactionsContext.tsx:52 | The result is no longer than the list, and every remaining transaction comes from the list and carries another id. |
| TransactionsContext.Reducer | src/context/TransactionsContext.tsx:36-59 | SET_TRANSACTIONS replaces the list. ADD prepends, growing the length by one and keeping the tail. UPDATE maps by id. REMOVE filters by id. Only SET_LOADING changes `loading`, and it changes nothing else. |
| TransactionsContext.Run | src/context/TransactionsContext.tsx:62 | Definition: the state after dispatching a sequence of actions in order. |
| TransactionsContext.FetchAllActions | src/context/TransactionsContext.tsx:64-74 | The dispatch sequence starts with SET_LOADING true and ends with SET_LOADING false. It holds one SET_TRANSACTIONS between them exactly when a body arrived, carrying the envelope's data. |
| TransactionsContext.FetchAllEffect | src/context/TransactionsContext.tsx:64-74 | `loading` is raised first and is always false at the end. The list is replaced by the fetched data exactly when a body arrived, and kept when the fetch threw. |
| TransactionsContext.FetchFailureModes | src/context/TransactionsContext.tsx:64-74 | A non-"success" status empties the list, while a thrown error keeps it. |
| TransactionsContext.FetchAllIdempotent | src/context/TransactionsContext.tsx:64-74 | Fetching again with the same outcome leaves the same state. |
| TransactionsContext.UpdateAbsentIsNoop | src/context/TransactionsContext.tsx:42-48 | Updating an id that is not present leaves the list unchanged. |
| TransactionsContext.RemoveKeepsOthers | src/context/TransactionsContext.tsx:49-53 | Removal keeps every transaction with another id as often as before, and keeps none with the removed id. |
| TransactionsContext.RemoveKeepsOrder | src/context/TransactionsContext.tsx:52 | Removal commutes with concatenation, so the relative order is kept. |
| TransactionsContext.RemoveAbsentIsNoop | src/context/TransactionsContext.tsx:49-53 | Removal never grows the list, and an absent id leaves it unchanged. |
| TransactionsContext.FilterKeepsUniqueIds | src/context/TransactionsContext.tsx:52 | Filtering a list with distinct ids keeps the ids distinct. |
| TransactionsContext.ReducerKeepsUniqueIds | src/context/TransactionsContext.tsx:36-59 | No action breaks id distinctness, given that an added id is fresh and a replacement list is itself distinct. |
| TransactionsContext.SameMillisecondAddsCollide | src/api/transactionsApi.ts:12-14 | Two adds stamped in the same millisecond put the same id in the list twice, so ids are not distinct. |
| TransactionsContext.TransactionStore.constructor | src/context/TransactionsContext.tsx:17-20 | The store starts empty and not loading. |
| TransactionsContext.TransactionStore.Dispatch | src/context/TransactionsContext.tsx:62 | The new state is the reducer applied to the old state and the action. |
| TransactionsContext.TransactionStore.FetchAll | src/context/TransactionsContext.tsx:64-74 | Dispatches SET_LOADING true, then SET_TRANSACTIONS only if a body arrived, then SET_LOADING false, and ends in the state those actions produce. |
| TransactionsContext.TransactionStore.AddTransaction | src/context/TransactionsContext.tsx:76-79 | Prepends the gateway's copy, with its fresh id, rather than the caller's transaction. |
| TransactionsContext.TransactionStore.UpdateTransaction | src/context/TransactionsContext.tsx:81-84 | Replaces every entry carrying the acknowledged id. |
| TransactionsContext.TransactionStore.RemoveTransaction | src/context/TransactionsContext.tsx:86-89 | Removes exactly the given id. |
| TransactionsScreen.Toggled | src/screens/TransactionsScreen.tsx:43-45 | The toggle always changes the order. |
| TransactionsScreen.ToggleTwiceIsIdentity | src/screens/TransactionsScreen.tsx:43-45 | Toggling twice restores the order. |
| TransactionsScreen.Filtered | src/screens/TransactionsScreen.tsx:91-94 | Under "All" the list is kept whole. Otherwise only transactions whose category equals the selection exactly are kept. |
| TransactionsScreen.FilteredCount | src/screens/TransactionsScreen.tsx:91-94 | Each matching transaction keeps all of its occurrences, and every other transaction drops to none. |
| TransactionsScreen.EffectKey | src/screens/TransactionsScreen.tsx:97-104 | Definition: the effect's key, the time of an undeclared `transaction_date` when present and `Number(id)` otherwise. |
| TransactionsScreen.EffectOrder | src/screens/TransactionsScreen.tsx:97-106 | The sorted copy holds the filtered rows, each as often as before, ordered by the effect's key in the toggled direction. |
| TransactionsScreen.FirstPage | src/screens/TransactionsScreen.tsx:108 | The first page is the prefix of length `min(5, n)`. |
| TransactionsScreen.CategoryKey | src/screens/TransactionsScreen.tsx:114 | Definition: `category \|\| "Uncategorized"`. The contract states that the key is never empty. |
| TransactionsScreen.CategoryTotals | src/screens/TransactionsScreen.tsx:111-118 | Definition: the per-category dictionary the loop is meant to build. `CategoryTotalsSpec` states what it holds. |
| TransactionsScreen.CategoryTotalsSpec | src/screens/TransactionsScreen.tsx:111-118 | A category has a total exactly when some transaction maps to it, with an empty category mapping to "Uncategorized". Each total is the sum over that category, and the totals add up to the grand total. |
| TransactionsScreen.SumIfSorted | src/screens/TransactionsScreen.tsx:97-118 | Sorting does not change any sum. |
| TransactionsScreen.SortKeepsTotals | src/screens/TransactionsScreen.tsx:97-118 | The sorted copy has the same categories, category sums and grand total as the filtered list. |
| TransactionsScreen.TotalsOfSortedCopy | src/screens/TransactionsScreen.tsx:97-121 | The category record and the grand total of the sorted copy equal those of the filtered list, so they cover the whole filtered set and not only the page. |
| TransactionsScreen.EffectOrderKeepsTotals | src/screens/TransactionsScreen.tsx:97-121 | Totalling the effect's sorted copy gives the same record and grand total as totalling the filtered list. |
| TransactionsScreen.ObjectStep | src/screens/TransactionsScreen.tsx:116 | Definition: one `totals[cat] = (totals[cat] \|\| 0) + amount` on a plain object, as written. |
| TransactionsScreen.ObjectTotals | src/screens/TransactionsScreen.tsx:111-118 | Definition: the `totals` object after the `forEach`, as written. |
| TransactionsScreen.ObjectTotalsAgree | src/screens/TransactionsScreen.tsx:111-118 | While no category is named after a member of `Object.prototype`, the object holds exactly the dictionary's entries, each as a number. |
| TransactionsScreen.ProtoCategoryDropped | src/screens/TransactionsScreen.tsx:111-118 | A transaction in category "__proto__" gets no entry, while its amount still goes into `sum`. |
| TransactionsScreen.ProtoCategoryWitness | src/screens/TransactionsScreen.tsx:111-121 | With amount "10" in category "__proto__", the object is empty while the grand total is 10 and the dictionary holds 10 under "__proto__". |
| TransactionsScreen.InheritedCategoryConcatenated | src/screens/TransactionsScreen.tsx:116 | A category named after an inherited method gets a string entry, not a number. |
| TransactionsScreen.ComputeTotals | src/screens/TransactionsScreen.tsx:110-121 | The loop's `totals` is the category record of the list, whose entries `CategoryTotalsSpec` describes. `sum` is the sum of all amounts and equals the sum of the totals. |
| TransactionsScreen.CategoryNames | src/screens/TransactionsScreen.tsx:152 | One entry per transaction, in list order, holding its category. |
| TransactionsScreen.DistinctCategories | src/screens/TransactionsScreen.tsx:151-153 | Definition: `[...new Set(names.filter(Boolean))]` as `FirstAppearances` of the non-empty category names. The three lemmas below state what it holds. |
| TransactionsScreen.DistinctCategoriesCover | src/screens/TransactionsScreen.tsx:151-153 | Every non-empty category of the list is among the distinct categories. |
| TransactionsScreen.DistinctCategoriesOccur | src/screens/TransactionsScreen.tsx:151-153 | Every distinct category is non-empty and carried by some transaction. |
| TransactionsScreen.DistinctCategoriesOrdered | src/screens/TransactionsScreen.tsx:151-153 | The distinct categories stand in the order of the first transaction carrying each. |
| TransactionsScreen.Categories | src/screens/TransactionsScreen.tsx:149-154 | The list starts with "All". After that comes each non-empty category exactly once, and only categories that occur. An earlier entry is first carried by an earlier transaction than a later entry. |
| TransactionsScreen.LoadMorePage | src/screens/TransactionsScreen.tsx:137-146 | The visible list is extended by the next `min(5, remaining)` elements of the sorted list from its current length, and is unchanged when none are left. |
| TransactionsScreen.DateKey | src/screens/TransactionsScreen.tsx:134 | Definition: `loadMore`'s key, the time of the row's `date`. |
| TransactionsScreen.LoadMoreOrder | src/screens/TransactionsScreen.tsx:128-135 | `loadMore`'s order holds the filtered rows, each as often as before, newest `date` first, whatever the toggle says. |
| TransactionsScreen.PagingWithoutGaps | src/screens/TransactionsScreen.tsx:137-146 | Paging a prefix of one fixed order yields the next longer prefix. |
| TransactionsScreen.SameDayNewestFirst | src/screens/TransactionsScreen.tsx:97-106 | For rows stored oldest first with one shared date, the effect's newest-first order is storage order reversed. |
| TransactionsScreen.ReversedThenStoragePaging | src/screens/TransactionsScreen.tsx:137-146 | Appending the storage-order slice to a reversed first page of six rows repeats a row and misses the oldest. |
| TransactionsScreen.PagingCanRepeatAndSkip | src/screens/TransactionsScreen.tsx:97-146 | Because `loadMore` re-sorts by date while the first page is sorted by id, six same-day rows stored oldest first, as a fetched list may be, show one transaction twice and the oldest never. |
| TransactionsScreen.AddKeepsNewestStored | src/context/TransactionsContext.tsx:40-41 | An add stamped no earlier than every stored id, on the same day, keeps the list stored newest first. |
| TransactionsScreen.NewestStoredPagesWithoutGaps | src/screens/TransactionsScreen.tsx:97-146 | For same-day rows stored newest first, as the app's own adds leave them, the first page plus the `loadMore` page are the first ten rows, with no repeat and no gap. |
| TransactionsScreen.SameDaySixQualifies | src/api/transactionsApi.ts:13 | Six rows with time-based ids 1 to 6 on one day meet the conditions of that scenario. |
| TransactionsScreen.TransactionsScreen.constructor | src/screens/TransactionsScreen.tsx:36-51 | The initial page is empty, with no load in flight, "All" selected, descending order, no totals and a grand total of 0. |
| TransactionsScreen.TransactionsScreen.ToggleSort | src/screens/TransactionsScreen.tsx:43-45 | The sort order becomes its toggle. |
| TransactionsScreen.TransactionsScreen.SelectCategory | src/screens/TransactionsScreen.tsx:294 | The selected category becomes the picked one. |
| TransactionsScreen.TransactionsScreen.RecomputeView | src/screens/TransactionsScreen.tsx:90-122 | The page is the first five of the sorted filtered list. `categoryTotals` is the per-category dictionary of the whole filtered set and `grandTotal` its sum of amounts, which equals the sum of the totals. |
| TransactionsScreen.TransactionsScreen.LoadMore | src/screens/TransactionsScreen.tsx:125-147 | Nothing happens while a load is in flight. Otherwise the next slice of the date-sorted list is appended, and under "All" the store's own list is left sorted. The visible list only grows. |
| TransactionsScreen.TransactionsScreen.SubmitForm | src/screens/TransactionsScreen.tsx:272 | An edit updates by id, and a new entry prepends the gateway's copy. |
| TransactionChart.DayLabelOfIsoDate | src/components/TransactionChart.tsx:30-31 | `YYYY-MM-DD` is labelled `DD/MM`. |
| TransactionChart.YearIsDiscarded | src/components/TransactionChart.tsx:30-31 | The same day and month in two years share a label. |
| TransactionChart.DayLabel | src/components/TransactionChart.tsx:30-31 | Definition: `${day}/${month}` from the pieces of `date.split("-")`. `DayLabelOfIsoDate` and `YearIsDiscarded` state its meaning. |
| TransactionChart.LabelOf | src/components/TransactionChart.tsx:30-31 | Definition: a transaction's bar label. |
| TransactionChart.DayTotals | src/components/TransactionChart.tsx:26-35 | Definition: the `Map` of running totals per label. `DayTotalsSpec` states what it holds. |
| TransactionChart.GroupStep | src/components/TransactionChart.tsx:28-35 | One `forEach` step adds a dated transaction's amount to its label's entry, starting from 0 for a new label. An undated transaction changes nothing. |
| TransactionChart.ArrivalStep | src/components/TransactionChart.tsx:33-37 | The `Map`'s key order gains a dated transaction's label at the end exactly when that label had no entry yet. |
| TransactionChart.Visit | src/components/TransactionChart.tsx:28-35 | Definition: one run of the `forEach` callback on the running totals and their key order. `VisitStep` and `AddToGroup` state its meaning. |
| TransactionChart.VisitStep | src/components/TransactionChart.tsx:28-35 | One callback step carries the record and key order of a prefix to those of the prefix one longer. |
| TransactionChart.AddToGroup | src/components/TransactionChart.tsx:28-35 | The callback skips an undated transaction, and otherwise adds the amount to the label's running total, a new label going last. |
| TransactionChart.DayTotalsSpec | src/components/TransactionChart.tsx:26-35 | A label has an entry exactly when some dated transaction carries it, and the entry is the sum of their amounts. The key order has no duplicates and the same labels. |
| TransactionChart.GroupByDay | src/components/TransactionChart.tsx:26-35 | The loop builds that record and its first-insertion key order. |
| TransactionChart.TruncateWhole | src/components/TransactionChart.tsx:40-41 | The `Date` constructor's truncation leaves whole numbers unchanged. |
| TransactionChart.MonthStart | src/components/TransactionChart.tsx:40-41 | Definition: the Gregorian day count from 1970-01-01 to the first of a month. `MonthStartTable` and `MonthStartsFollowMonthLengths` pin it down for 2025. |
| TransactionChart.LabelKey | src/components/TransactionChart.tsx:37-42 | Definition: the comparator's key, `new Date(2025, m - 1, d)` in whole days. `LabelKeyOfParts` and `KeyOrdersByMonthThenDay` state its meaning. |
| TransactionChart.MonthStartsFollowMonthLengths | src/components/TransactionChart.tsx:40-41 | In the Gregorian day count, each month of 2025 starts exactly the previous month's length after that month's first day. |
| TransactionChart.MonthStartTable | src/components/TransactionChart.tsx:40-41 | The Gregorian day count of the first of each month of 2025 is 20089 plus the days of the earlier months. |
| TransactionChart.MonthStart2025 | src/components/TransactionChart.tsx:40-41 | `new Date(2025, m - 1, d)` is day 20089 plus the days of the earlier months plus `d - 1`, counted from 1970-01-01. |
| TransactionChart.KeyOrdersByMonthThenDay | src/components/TransactionChart.tsx:37-43 | For real days of 2025, one key is smaller than another exactly when its month is earlier, or the month is the same and the day earlier. |
| TransactionChart.LabelKeyOfParts | src/components/TransactionChart.tsx:38-41 | A label whose two parts read as numbers is keyed by `new Date(2025, m - 1, d)`. |
| TransactionChart.DigitsLabelParts | src/components/TransactionChart.tsx:38 | A `DD/MM` label of digits splits into its day and month, which read as their decimal values. |
| TransactionChart.CalendarOrderOfKeys | src/components/TransactionChart.tsx:40-42 | For real days of 2025, keys in order mean calendar order. |
| TransactionChart.LabelsInCalendarOrder | src/components/TransactionChart.tsx:37-43 | Two labels naming real 2025 days whose keys are in order name days in calendar order. |
| TransactionChart.SortedKeysAt | src/components/TransactionChart.tsx:37-43 | In the sorted labels, an earlier label never has a larger key. |
| TransactionChart.SortedLabelsFollowCalendar | src/components/TransactionChart.tsx:37-43 | In the sorted labels, any two labels naming real 2025 days stand in (month, day) order. |
| TransactionChart.ChartWidth | src/components/TransactionChart.tsx:56-59 | The width is the larger of `screenWidth - 40` and `labels.length * 50 + 80`. |
| TransactionChart.SortedLabels | src/components/TransactionChart.tsx:37-43 | `sortedDates` holds the `Map`'s keys, each as often as before, in ascending order of their key. |
| TransactionChart.BarValues | src/components/TransactionChart.tsx:46 | There is one value per label, and each value is the label's total, or 0 when the label is absent. |
| TransactionChart.ChartOf | src/components/TransactionChart.tsx:45-59 | Definition: the view the component renders. `NoDataIffUndated` and `BarsSpec` state what it shows. |
| TransactionChart.RenderChart | src/components/TransactionChart.tsx:25-59 | The component body yields the chart view that `ChartOf` describes, whose properties `NoDataIffUndated` and `BarsSpec` give. |
| TransactionChart.SortedLabelsSpec | src/components/TransactionChart.tsx:37-43 | The sorted labels are distinct, ascending by key, and exactly the grouped keys. |
| TransactionChart.NoDataIffUndated | src/components/TransactionChart.tsx:48-54 | The no-data card is shown exactly when no transaction has a date. |
| TransactionChart.BarsSpec | src/components/TransactionChart.tsx:37-59 | The bars have distinct sorted labels, exactly those of the dated transactions. There are as many values as labels, each the sum of its label's amounts, and the width is `ChartWidth`. |
| TransactionChart.UndatedChangesNothing | src/components/TransactionChart.tsx:29 | Adding a transaction without a date leaves the chart unchanged. |
| TransactionForm.DatePart | src/components/TransactionForm.tsx:42 | The date part contains no `T`. It is the whole string or the prefix up to the first `T`. |
| TransactionForm.DatePartOfTimestamp | src/components/TransactionForm.tsx:42 | `YYYY-MM-DDThh:mm…` keeps `YYYY-MM-DD`. |
| TransactionForm.CategoryAccepted | src/components/TransactionForm.tsx:30 | Definition: `category.trim()` is non-empty. `CategoryBoundary` states its boundary cases. |
| TransactionForm.AmountAccepted | src/components/TransactionForm.tsx:35 | Definition: the amount is not blank, reads as a number, and that number is positive. The amount lemmas below state its cases. |
| TransactionForm.Built | src/components/TransactionForm.tsx:40-46 | The date is `DatePart(isoNow)`, the calendar date of the save (`DatePartOfTimestamp`): it holds no `T` and is a prefix of the ISO timestamp. Type, amount and category are stored as entered, untrimmed. An edit keeps the edited transaction's id, and a new transaction's id is `NatToString(nowMs)`, the save time in decimal. |
| TransactionForm.NewIdIsSaveTime | src/components/TransactionForm.tsx:41 | A new transaction's id reads back as the time it was saved. |
| TransactionForm.AcceptedAmountCounts | src/components/TransactionForm.tsx:35-45 | A submitted amount counts in totals with its own value, which is positive. |
| TransactionForm.CategoryBoundary | src/components/TransactionForm.tsx:30-33 | Empty and whitespace-only categories are rejected. Padded visible text is accepted. |
| TransactionForm.WholeAmountAccepted | src/components/TransactionForm.tsx:35-38 | A positive whole amount is accepted. |
| TransactionForm.FractionalAmountAccepted | src/components/TransactionForm.tsx:35-38 | A positive fractional amount is accepted. |
| TransactionForm.NonPositiveAmountsRejected | src/components/TransactionForm.tsx:35-38 | `0` and `-5` are rejected although they are numbers. |
| TransactionForm.NonNumericAmountsRejected | src/components/TransactionForm.tsx:35-38 | Text and blank amounts are rejected. |
| TransactionForm.FormFields.constructor | src/components/TransactionForm.tsx:13-15 | The initial fields are those the reset effect would write. |
| TransactionForm.FormFields.Reset | src/components/TransactionForm.tsx:17-27 | With an edited transaction the fields copy its category, amount and type. Without one they become `""`, `""` and expense. |
| TransactionForm.FormFields.HandleSave | src/components/TransactionForm.tsx:29-50 | A blank category alerts first and submits nothing. A blank, non-numeric or non-positive amount alerts and submits nothing. Otherwise exactly one transaction is submitted and then the form closes. |
| TransactionForm.SubmittedIsValid | src/components/TransactionForm.tsx:29-50 | A submission is the only one and is followed by close. It carries a non-blank category and a positive amount. |
| TransactionForm.UnchangedEditKeepsRecord | src/components/TransactionForm.tsx:40-46 | Saving an unchanged edit resubmits the same record, with only the date moved to today. |
| TransactionActions.ValidCategoriesSpec | src/components/TransactionActions.tsx:35 | Exactly the entries equal to "All Transaction" are removed. Other entries keep their counts, and order is kept across any split. |
| TransactionActions.ValidCategoriesWithoutSentinel | src/components/TransactionActions.tsx:35 | A list without the sentinel is kept as it is. |
| TransactionActions.ValidCategories | src/components/TransactionActions.tsx:35 | The picker never offers "All Transaction" and never has more entries than the list it was given. |
| TransactionActions.ScreenSentinelSurvives | src/components/TransactionActions.tsx:35 | The screen does not render this panel. Were its category list passed in, its "All" entry would remain a choice, since it is not the sentinel removed here. |
| TransactionActions.Accepted | src/components/TransactionActions.tsx:38 | Definition: both the amount and the category are non-empty. `FormAcceptanceImpliesPanelAcceptance` and `PanelAcceptsWhatFormRefuses` compare it with the form. |
| TransactionActions.Built | src/components/TransactionActions.tsx:43-49 | Definition: the panel's transaction. `AddedCarriesInputs` states what it carries. |
| TransactionActions.FormAcceptanceImpliesPanelAcceptance | src/components/TransactionActions.tsx:38 | Whatever the modal form accepts, this panel accepts too. |
| TransactionActions.PanelAcceptsWhatFormRefuses | src/components/TransactionActions.tsx:38-41 | The panel accepts `-5`, `abc` and a blank amount, all of which the form refuses. |
| TransactionActions.FormDateLabel | src/components/TransactionForm.tsx:42 | A form-saved date charts under `DD/MM`. |
| TransactionActions.TimestampLabel | src/components/TransactionActions.tsx:45 | A full timestamp charts under `DDThh…/MM`. |
| TransactionActions.TimestampLabelsDifferFromFormDates | src/components/TransactionActions.tsx:45 | The same day entered in the panel and in the form lands on two different chart bars. |
| TransactionActions.ActionsPanel.constructor | src/components/TransactionActions.tsx:27-32 | The panel starts hidden and empty, with type income. |
| TransactionActions.ActionsPanel.ShowForm | src/components/TransactionActions.tsx:64 | Shows the form and leaves the inputs as they were. |
| TransactionActions.ActionsPanel.HandleSubmit | src/components/TransactionActions.tsx:37-56 | An empty amount or category alerts and changes nothing. Otherwise one transaction built from the inputs is emitted, and the form is hidden and reset to `""`, `""` and income. |
| TransactionActions.AddedCarriesInputs | src/components/TransactionActions.tsx:43-49 | The emitted transaction carries the inputs, the full timestamp and an id that reads back as the time. |

## Left out

- **Network.** The HTTP request and JSON decoding in `fetchTransactions` are not modelled. The store receives their outcome as `Responded(envelope)` or `Failed`. The awaits are collapsed: each provider operation is one atomic step.
- **Time as parameters.** `Date.now()`, `new Date().toISOString()` and `new Date(date).getTime()` in `loadMore` are parameters: `nowMs`, `isoNow` and `timeOf`. The undeclared `transaction_date` the effect reads is the parameter `datedAt`.
- **Comparators returning NaN.** A NaN from a comparator is not modelled: an id that does not read as a number is keyed 0, where the engine's treatment of NaN is unspecified. Likewise a truthy `transaction_date` that does not parse gives NaN in the effect's comparator, which the parameter `datedAt` (a whole-millisecond time or none) cannot express; the same holds for a `date` that `loadMore`'s `timeOf` receives.
- **Floating point.** Amounts are exact rationals, so IEEE rounding in sums is not modelled. `Number` is modelled for signed decimal literals with an optional fraction. Exponents, `Infinity`, and `0x`/`0o`/`0b` literals read as NaN in the model.
- **Chart dates.**
  - The chart keys labels by whole days from 1970-01-01. Time zones, daylight-saving shifts and the `Date` range limit are not modelled.
  - A label part that is not a number gives an Invalid Date in JavaScript, and the key 0 in the model.
- **Chart amounts.** The chart's own `transaction_amount: string | number` prop type is narrowed to the string the record declares.
- **Timer.** In `loadMore`, the `setTimeout` delay and the `loadingMore` toggling around it are collapsed into one step guarded by the flag.
- **Rendering and outside the core.** JSX rendering, styles, modals' visibility animations and the category filter modal's visibility flag are not modelled. The same goes for the compound-interest calculator, the battery and calendar native modules, and font loading.

Weaker contracts, one per member:

- TransactionsScreen.CategoryTotalsSpec: describes the per-category dictionary the loop is meant to build, not the plain object it builds. A category named after a member of `Object.prototype` makes the object differ (see Findings). `ObjectTotalsAgree` proves the two agree whenever no category is such a name.
- TransactionsScreen.ComputeTotals: builds that dictionary. Its `sum == MapSum(totals)` holds for the dictionary, and fails for the object as written when a category is "__proto__" (`ProtoCategoryWitness`).
- TransactionsScreen.TransactionsScreen.RecomputeView: stores that dictionary in `categoryTotals`, so its `grandTotal == MapSum(categoryTotals)` carries the same proviso.
- TransactionsContext.ReducerKeepsUniqueIds: holds only when an added id is fresh. The gateway stamps ids with `Date.now()`, so two adds within one millisecond collide (`SameMillisecondAddsCollide`). So does an add whose time matches the id of a fetched row.
- TransactionChart.SortedLabelsFollowCalendar: only labels whose parts read as real 2025 days are covered. Other labels are ordered by the key `LabelKey` gives them, as `SortedLabelsSpec` states.

## Findings

| source | as written | input that shows it | evidently intended | confidence | as-written member | corrected member |
|---|---|---|---|---|---|---|
| src/screens/TransactionsScreen.tsx:111-118 | `totals[cat] = (totals[cat] \|\| 0) + amount` on a plain object `{}` | one transaction with category "__proto__" and amount "10": `sum` is 10, but the `__proto__` setter ignores the string written, so `totals` stays empty | a per-category dictionary whose entries add up to `grandTotal` | not executed; follows from the JavaScript semantics of `__proto__` | TransactionsScreen.ProtoCategoryWitness | TransactionsScreen.CategoryTotalsSpec |
| src/screens/TransactionsScreen.tsx:116 | the first read of an inherited name returns a function, which `+` turns into a string | one transaction with category "constructor": its entry is a string, on which the summary's `toFixed` would throw | each entry is the number summed for that category | not executed; follows from the JavaScript semantics of `Object.prototype` | TransactionsScreen.InheritedCategoryConcatenated | TransactionsScreen.CategoryTotalsSpec |
