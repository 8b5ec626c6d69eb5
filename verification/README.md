# Finance Hub ledger core in Dafny

This project models the bookkeeping core of Finance Hub, a single-page
personal finance application (`src/App.jsx`). The application keeps four
lists in state: transactions, accounts, expense categories (each with a
list of sub-categories) and income categories. Everything it shows is
derived from those lists:

- the balance of every account and the net balance;
- the transactions of the selected period (month to date, last 7 days, last
  month, last 3 months, year to date, or a custom date range) and their
  income and expense totals;
- the sorted, type-filtered transaction list and the drill-down lists;
- per-category and per-sub-category totals;
- the monthly stacked trend of expenses by category, and by the
  sub-categories of one category;
- the rows of the spreadsheet export.

The store handlers (`saveTxn` … `delIC`) change the four lists. They are
modelled as the methods of a class `Store` whose fields are those lists.

The modules are as follows.

- `SeqUtil` (`seq_util.dfy`) holds the list machinery the code relies on:
  - `filter`;
  - the stable `Array.prototype.sort`, modelled as an insertion sort that keeps
    equal keys in their original order;
  - `findIndex`, and the "replace at the index or append" update;
  - summing with `reduce`;
  - grouping into an object keyed by id, whose `Object.values` order is
    modelled by a list of keys in creation order.
- `Calendar` (`calendar.dfy`) gives calendar days, ordinals and month indices.
  It also models the `Date` constructor's normalisation of out-of-range months
  and of day 0.
- `IsoDate` (`iso_date.dfy`) models `toYMD`, the `YYYY-MM-DD` strings the
  transactions carry and the `YYYY-MM` month keys. It compares those strings
  character by character (`LexCmp`), standing in for the `localeCompare`
  used to sort them.
- `Period` (`period.dfy`) models `periodDates` and the custom range.
- `Ledger` (`ledger.dfy`) models:
  - the records;
  - `accBal` and `netBal`;
  - `periodTxns`, `pIncome` and `pExpense`;
  - `filtered`, `drillExp` and `drillInc`;
  - `trendCats`;
  - `buildExportRows`.
- `Breakdown` (`breakdown.dfy`) models `expByCat`, `incByCat` and `subCatD`.
- `Trend` (`trend.dfy`) models `trendData` and `trendSubData`.
- `Handlers` (`store.dfy`) models the store handlers.

The model works on these values:

- Amounts are integers.
- Dates are calendar days `Date(year, month, day)`.
- An instant is a day plus milliseconds since midnight.
- "Today" is a parameter, as is the answer to a confirmation dialog.

## Model

| member | source | states |
|---|---|---|
| Period.PeriodDates | src/App.jsx:191-202 | Every period is a well-formed range that starts at midnight and does not end before it starts |
| Period.MonthToDate | src/App.jsx:195-200 | "mtd" and every unknown period id start at 00:00 on the first of the current month |
| Period.SevenDays | src/App.jsx:196 | "7d" starts at 00:00 six calendar days before today, so the window holds seven days counting today |
| Period.LastMonth | src/App.jsx:197 | "lastm" runs from the first of the previous month (December of the previous year in January) to 23:59:59 on the last day of that month |
| Period.ThreeMonths | src/App.jsx:198 | "3m" starts on the first of the month three months back, crossing into the previous year when needed |
| Period.YearToDate | src/App.jsx:199 | "ytd" starts at 00:00 on 1 January of the current year |
| Period.PeriodEndsToday | src/App.jsx:195-200 | Every period except "lastm" ends at the last millisecond of today |
| Period.TodayInPeriod | src/App.jsx:192-200 | Today lies inside every period except "lastm" |
| Period.CustomRange | src/App.jsx:881 | The custom range exists exactly when both entered dates read as dates; its bounds are valid instants |
| Period.ActiveRange | src/App.jsx:879-882 | The range is missing exactly for a custom period with a date that does not read as a date; a range starts at midnight and its bounds are valid instants |
| Period.InRangeByDay | src/App.jsx:883 | For a range starting at midnight, a transaction dated on a day is inside it exactly when that day lies between the range's first and last day |
| Period.InvertedCustomRangeIsEmpty | src/App.jsx:881-883 | A custom range whose end day precedes its start day contains no day |
| IsoDate.ToYMD | src/App.jsx:203 | For a four-digit year, `toYMD` writes four year digits, a dash, two month digits, a dash and two day digits |
| IsoDate.ParseYMD | src/App.jsx:881 | A string that reads as a date gives a valid calendar day with a year of at most four digits |
| IsoDate.ToYMDRoundTrip | src/App.jsx:203 | Reading back the `YYYY-MM-DD` string that `toYMD` writes gives the same day, for four-digit years |
| IsoDate.ParseYMDCanonical | src/App.jsx:203 | Every well-formed date string with a four-digit year is exactly what `toYMD` writes for its day |
| IsoDate.ToYMDOrder | src/App.jsx:894 | Comparing two date strings character by character (`LexCmp`) orders them as their calendar days, for four-digit years |
| IsoDate.MonthKey | src/App.jsx:908 | The month key `mk` is the start of the day's `YYYY-MM-DD` string |
| IsoDate.MonthKeyOrder | src/App.jsx:908-912 | Comparing two `YYYY-MM` month keys as strings orders them as their months |
| Ledger.Accumulate | src/App.jsx:870-873 | After the loop over the transactions, each key holds the sum of the signed amounts of the transactions booked under it. The keys are kept once each: the starting keys, then each new key in the order of its first transaction (`NewKeys`), which is the creation order `Object.values` follows |
| Ledger.OpenAccounts | src/App.jsx:868-869 | Every listed account starts at balance 0, one key per distinct id |
| Ledger.AccountBalances | src/App.jsx:867-875 | `accBal` has a key for every listed account and for every account a transaction names, and each key's value is the net of the income and expenses booked on that account |
| Ledger.IdleAccountIsZero | src/App.jsx:869 | A listed account that no transaction names has balance 0 |
| Ledger.AccountNetSplit | src/App.jsx:872 | An account's balance is the sum of its income minus the sum of all its other transactions |
| Ledger.NetBalanceIsTotal | src/App.jsx:876 | `netBal`, the sum over `accBal`, equals the signed total of all transactions, including those on deleted accounts |
| Ledger.PeriodTxns | src/App.jsx:879-884 | A transaction is in `periodTxns` exactly when it is in the list and its date lies in the active range |
| Ledger.PeriodTxnsExact | src/App.jsx:879-884 | `periodTxns` keeps every transaction inside the active range, as often as it occurs, drops the rest, and keeps list order |
| Ledger.EmptyCustomPeriod | src/App.jsx:881-883 | A custom period whose dates are unreadable or inverted shows no transactions |
| Ledger.PIncome | src/App.jsx:892 | `pIncome` is 0 when the period has no income, and never negative when no amount is |
| Ledger.PExpense | src/App.jsx:893 | `pExpense` is 0 when the period has no expense, and never negative when no amount is |
| Ledger.IncomeExpenseCoverAll | src/App.jsx:892-893 | When every transaction is income or expense, `pIncome` plus `pExpense` is the total amount of the period's transactions |
| Ledger.PeriodTotalsSplit | src/App.jsx:892-893 | Income and expense totals add up over concatenated transaction lists |
| Ledger.Filtered | src/App.jsx:894 | `filtered` is newest first, and holds a transaction exactly when the period has it and it is of the chosen type (any type for "all") |
| Ledger.FilteredView | src/App.jsx:894 | `filtered` is newest first, holds exactly the period transactions of the chosen type, and keeps list order among transactions of the same day; "all" is the whole period sorted |
| Ledger.DrillExp | src/App.jsx:899 | `drillExp` is newest first, and holds a transaction exactly when a sub-category is selected and the transaction is an expense of the period in it |
| Ledger.DrillExpView | src/App.jsx:899 | With no sub-category selected the drill-down is empty; otherwise it is exactly the expenses of that sub-category, newest first |
| Ledger.DrillInc | src/App.jsx:900 | `drillInc` is newest first, and holds a transaction exactly when an income category is selected and the transaction is income of the period in it |
| Ledger.DrillIncView | src/App.jsx:900 | With no income category selected the drill-down is empty; otherwise it is exactly the income of that category, newest first |
| Ledger.TrendCats | src/App.jsx:903 | A category is in `trendCats` exactly when it is an expense category some expense transaction uses |
| Ledger.TrendCatsExact | src/App.jsx:903 | A category appears in `trendCats`, as often as it is listed, exactly when some expense uses it; category order is kept |
| Ledger.CategoryLabel | src/App.jsx:267-273 | The Category column is empty when the transaction's category is not in the list of its type; otherwise an expense's column starts with its category's name and an income's is its category's name |
| Ledger.RowOf | src/App.jsx:266-276 | An export row carries the transaction's date, note and Category column, income as a positive and expense as a negative amount, and the type label "Income" exactly for income, "Expense" otherwise |
| Breakdown.CategoryLabelOf | src/App.jsx:267-273 | The Category column uses the first category with the transaction's id: an expense's column is that category's name, followed by " / " and the sub-category's name when `subCatD`'s lookup finds the sub-category; an income's column is that category's name; the column is empty when there is no such category |
| Ledger.CategoryLabelFound | src/App.jsx:268-272 | With non-empty category names, the Category column is empty exactly when the transaction's category is missing from the list of its type |
| Ledger.ExportRows | src/App.jsx:265-277 | One row per transaction, newest first: the rows are a permutation of the rows of the transactions in list order |
| Ledger.ExportRowsSum | src/App.jsx:265-277 | The Amount column sums to the signed total of the transactions |
| Ledger.ExportRowsCover | src/App.jsx:265-277 | Every row is the row of some transaction, and every transaction has its row |
| Breakdown.CategoryTotals | src/App.jsx:896-897 | The rows are sorted by value, largest first, with one row per category. A category has a row exactly when it is listed and a transaction of the kind uses it. Each row holds the category's name and icon and the sum of its transactions. The rows add up to the total of the transactions whose category is found |
| Breakdown.ExpenseByCategory | src/App.jsx:896 | `expByCat`: the per-category expense totals, with the guarantees of the row above |
| Breakdown.IncomeByCategory | src/App.jsx:897 | `incByCat`: the per-category income totals, with the guarantees of the row above |
| Breakdown.CategoryTotalsReconcile | src/App.jsx:892-897 | When every transaction of the kind has a listed category, the category rows add up to `pExpense` (or `pIncome`) |
| Breakdown.CategoryRowsPositive | src/App.jsx:896-897 | With positive amounts, every category that has a row has a positive total |
| Breakdown.SubOf | src/App.jsx:898 | A transaction's sub-category is found only if its category is listed and holds a sub-category with that id; without a sub-category id or a listed category it is not found; when the first category with the transaction's category id holds a sub-category with its sub-category id, the first such sub-category is found |
| Breakdown.SubRowFirst | src/App.jsx:898 | A sub-category row takes its category id and name from the first transaction that contributes to it |
| Breakdown.SubCategoryBreakdown | src/App.jsx:898 | The rows are sorted by amount, largest first, with one row per sub-category id. Every row's sub-category has a contributing expense: one of the selected category (or of any category when none is selected) that names a sub-category found in its category. Every contributing expense's sub-category has a row. Each row holds the sum of those expenses, and the rows add up to the total of the contributing expenses |
| Breakdown.SubTotalsReconcile | src/App.jsx:896-898 | When every expense of the selected category names a sub-category that is found, the sub-category rows add up to that category's total |
| Trend.AddToMonth | src/App.jsx:907-910 | Adding one charted transaction to the grouping of the transactions seen so far gives the grouping of those transactions plus this one. Its month is appended to the month order only when it is new |
| Trend.GroupByMonth | src/App.jsx:906-911 | After the loop, the months seen are kept once each. Each month maps each series to the sum of the amounts of the transactions in that month and series |
| Trend.LastMonths | src/App.jsx:912 | `.slice(-12)` keeps the last twelve rows, or all rows when there are fewer |
| Trend.LastMonthsKeep | src/App.jsx:912 | Trimming keeps the ascending order; any month it drops is earlier than every month it keeps |
| Trend.MonthlyTrend | src/App.jsx:904-913 | At most twelve rows, in ascending month order. Every row is a month with a charted transaction. A charted month is missing only when twelve later months are kept. Each row has a value for a series exactly when a transaction of that month belongs to it, and the value is those transactions' total |
| Trend.TrendData | src/App.jsx:904-913 | `trendData`: the chart guarantees of the row above, for expenses keyed by category |
| Trend.TrendSubData | src/App.jsx:914-926 | Without a selected category, with an unknown one, or with one that has no sub-categories, the result is empty. Otherwise it is the chart of that category's expenses that carry a sub-category, keyed by sub-category |
| Handlers.WithSub | src/App.jsx:936 | `saveSC` changes only the categories with the parent id, upserting the sub-category into their lists |
| Handlers.WithoutSub | src/App.jsx:937 | `delSC` changes only the categories with the parent id, dropping the sub-categories with that id |
| Handlers.Store.constructor | src/App.jsx:930-939 | The store starts from the four given lists |
| Handlers.Store.SaveTxn | src/App.jsx:930 | The transaction list becomes the upsert of `t` by id; the other lists are unchanged |
| Handlers.Store.DelTxn | src/App.jsx:931 | When confirmed, exactly the transactions with that id are removed; otherwise nothing changes |
| Handlers.Store.SaveAcc | src/App.jsx:932 | The account list becomes the upsert of `a`, merged over the old record; the other lists are unchanged |
| Handlers.Store.DelAcc | src/App.jsx:933 | When confirmed, the accounts with that id are removed and the transactions stay |
| Handlers.Store.SaveEC | src/App.jsx:934 | The expense category list becomes the upsert of `c`, keeping an existing category's sub-categories |
| Handlers.Store.DelEC | src/App.jsx:935 | The delete happens exactly when no transaction names the category, and then removes the categories with that id |
| Handlers.Store.SaveSC | src/App.jsx:936 | The expense categories become `WithSub` of the old list; the other lists are unchanged |
| Handlers.Store.DelSC | src/App.jsx:937 | The delete happens exactly when no transaction of any category names the sub-category id, and then removes it from the parent category |
| Handlers.Store.SaveIC | src/App.jsx:938 | The income category list becomes the upsert of `c` by id |
| Handlers.Store.DelIC | src/App.jsx:939 | The delete happens exactly when no transaction names the category, and then removes the categories with that id |
| Handlers.SaveOverwrites | src/App.jsx:930-938 | After a save, looking up the saved id finds the saved record, the records with other ids keep their order, and the list grows only when the id was new |
| Handlers.MergeAccount | src/App.jsx:932 | The merged account is the submitted account |
| Handlers.KeepSub | src/App.jsx:934 | The merged expense category keeps the old sub-category list and otherwise is the submitted category |
| Handlers.SaveECKeepsSub | src/App.jsx:934 | After `saveEC` the category has the new name, icon and colour and the sub-categories it had before |
| Handlers.SaveECKeepsOthers | src/App.jsx:934 | `saveEC` leaves the categories with other ids as they were, in order |
| Handlers.DeleteExactly | src/App.jsx:931-939 | A delete keeps exactly the records with another id, with their multiplicities; it keeps their order, since deleting from a concatenation deletes from each part; with no record of that id it changes nothing |
| Handlers.SaveSCFinds | src/App.jsx:936 | After `saveSC`, the parent category finds the saved sub-category by its id, and nothing else about the parent changes |

## Left out

- Persistence: `localStorage` (`useLS`), backup and restore, the spreadsheet and file writers, notifications, SMS detection and the whole user interface are not modelled. Neither is the UI state the handlers also reset (`setShowTF`, `setEditT`, `setExpandedCat`, …) or the `alert` and `confirm` dialogs: a dialog's answer is a parameter.
- `pLabel`, `fmtD`, `fmt` and the trend rows' `label` field are display formatting and are not modelled. An export row keeps the transaction's date rather than its formatted text.
- `uid` and the clock are not modelled: new records arrive with their ids, and "today" is a parameter.
- Amounts are integers. JavaScript's floating-point sums, and rounding with fractional amounts, are not modelled.
- Dates are calendar days. The local-time zone, and `new Date("YYYY-MM-DD")` reading a date as UTC midnight, are not modelled. Neither is the parser's leniency towards malformed strings: a string that is not `YYYY-MM-DD` does not parse.
- Dates are compared as days. The model compares date strings by character code (`LexCmp`), proved equal to day order for four-digit years. That `localeCompare` orders strings of digits and dashes of the same width in the same way is assumed, not modelled.
- The trend grouping object shares its keys between `mk`, `label` and the category ids. A category id equal to `mk` or `label` would collide; the model keeps the totals in a separate map.
- The model does not reproduce JavaScript's rule that integer-like object keys come first in `Object.values`; insertion order is used throughout.
- `cat.sub` missing, as opposed to an empty list, is modelled as an empty list. Where the source reads it (`c?.sub?.find`, `cat?.sub?.length`) the two behave alike. But `saveSC` and `delSC` (`src/App.jsx:936-937`) call `c.sub.findIndex` and `c.sub.filter`, which throw a `TypeError` on a missing list; the model upserts into, or filters, an empty list instead.
- Handlers.MergeAccount: `{...n[i], ...a}` is modelled as the new record winning on every field, because the account form always sends all of them.
- Ids are compared as plain strings. In the source, `t.accountId in m` (`src/App.jsx:871`) and `!m[c.id]` (`src/App.jsx:896-897`) also see the names `Object.prototype` provides, such as `toString` or `constructor`: an account or category with such an id would be counted wrongly there. The model treats every id alike.
- Breakdown.SubCategoryBreakdown: the `filter` followed by `forEach` in `subCatD` is modelled as one key function that selects the contributing expenses.
