# PFM-Frontend: client-side aggregation and filtering

This project is a Dafny model of the logic in the screens of the PFM-Frontend
mobile banking client. The screens receive transactions, accounts and
forecasts from a remote API. Before drawing anything they compute:

- the trailing six-month window of `yyyy-MM` month keys, and month buckets
  seeded to zero and summed per month (home screen, account detail, analysis tab);
- the analysis tab's credit and debit series, the net flow per month, a
  running balance simulated from 1000, and the three alerts with the
  "all clear" flag;
- tallies by key: the amount per category on the home screen, the number of
  transactions per banking product with the "dominant product" rule above
  50 %, and the busiest month of the information tab;
- list filters: transactions by category and by a case-insensitive
  description search; the monthly trend restricted to one category; accounts
  by IBAN or currency;
- the prediction summary: palette colours, the total, the folded legend and
  the ±5 trend badge.

Amounts are `real`, so there is no rounding. Transaction dates are ISO
`yyyy-MM-dd` strings whose 7-character prefix is the month key. A month is
a `(year, month)` pair with explicit rollover. It is computed from a
reference month passed in, instead of the clock. Locale-dependent labels
(month names) are a function parameter.

Modules by source file:

| module | models |
|---|---|
| `Common` | option type, left-fold sum, `filter`, `startsWith`/`slice(0, 7)`/`includes`, case folding, the "first n unless expanded" truncation |
| `Months` | month arithmetic, the six-month window and its `yyyy-MM` keys |
| `Ledger` | transactions and accounts (`src/navigation/routes.ts`), the per-account filter, sums by predicate and by month |
| `Tally` | accumulation into a JavaScript object used as a dictionary: ordered keys plus a map |
| `Buckets` | `monthlySums`: seed every window key to 0, then add each transaction to its month |
| `Sorting` | in-place array sort by a string key, ascending or descending |
| `Home` | `src/screens/HomeScreen.tsx` |
| `FinanceAnalysis` | `src/screens/tabs/FinanceAnalysisTab.tsx` |
| `CompteDetail` | `src/screens/CompteDetailScreen.tsx` |
| `ProductUsage` | `src/screens/tabs/ProductUsageTab.tsx` |
| `GeneralInfo` | `src/screens/tabs/GeneralInfoTab.tsx` |
| `TransactionsScreen` | `src/screens/TransactionsScreen.tsx` |
| `CompteScreen` | `src/screens/CompteScreen.tsx` |
| `Prediction` | `src/screens/PredictionScreen.tsx` |

Loops and in-place updates stay imperative: the month loops, `monthlySums`,
the dictionary accumulations, the running-balance reduce and the array
sorts are `method`s with loop invariants. Each is proved against a
function that specifies it. The map/filter/reduce expressions are
functions with lemmas about them.

## Model

| member | source | states |
|---|---|---|
| Months.Window | src/screens/tabs/FinanceAnalysisTab.tsx:22-23 | six valid months, oldest first, ending at the reference month, month `i` exactly `5 - i` months before it |
| Months.WindowContiguous | src/screens/tabs/FinanceAnalysisTab.tsx:22-23 | each month of the window is followed by the next calendar month |
| Months.WindowClosedForm | src/screens/HomeScreen.tsx:55-56 | month `i` of the window is the reference month moved back within the year, or into the previous year below January |
| Months.WindowJanuary | src/screens/HomeScreen.tsx:55-56 | the window ending January 2025 runs from August 2024 to January 2025 |
| Months.Key | src/screens/tabs/FinanceAnalysisTab.tsx:24 | the key of a month is a 7-character `yyyy-MM` string |
| Months.KeyInjective | src/screens/tabs/FinanceAnalysisTab.tsx:24 | different months have different keys |
| Months.WindowKeys | src/screens/tabs/FinanceAnalysisTab.tsx:18-28 | six keys whose last one is the key of the reference month, each the key of the window month at that position |
| Months.WindowKeysDistinct | src/screens/HomeScreen.tsx:52-60 | the six keys of the window are pairwise different |
| Months.StartsWithKeyIffPrefix | src/screens/tabs/FinanceAnalysisTab.tsx:34 | `date.startsWith(key)` holds exactly when `date.slice(0, 7)` equals the key |
| Ledger.ForAccount | src/screens/CompteDetailScreen.tsx:38 | an order-preserving subsequence keeping every transaction of the account as often as it occurs and no other |
| Ledger.ForAccountIdempotent | src/screens/tabs/ProductUsageTab.tsx:36 | filtering an account's own list by that account again changes nothing |
| Ledger.OrDefault | src/screens/HomeScreen.tsx:153 | a present non-empty value is kept; a missing or empty one gives the fallback |
| Ledger.TotalOfFilter | src/screens/TransactionsScreen.tsx:119-122 | summing the amounts of the filtered list equals summing the amounts that satisfy the predicate |
| Ledger.SumWhereSplit | src/screens/HomeScreen.tsx:151-155 | the amounts that satisfy a predicate and those that do not add up to the total amount |
| Ledger.BucketsAddUp | src/screens/CompteDetailScreen.tsx:49-64 | for distinct keys, the month buckets add up to the amount of the transactions whose month is one of the keys |
| Ledger.BucketsSnoc | src/screens/CompteDetailScreen.tsx:57-62 | one more transaction adds its amount to the buckets exactly when its month is a key |
| Ledger.BucketsEmpty | src/screens/CompteDetailScreen.tsx:51-56 | with no transaction every bucket total is zero |
| Ledger.SumIsSumBuckets | src/screens/HomeScreen.tsx:164 | values read off the buckets key by key add up to the bucket total |
| Tally.Accumulate | src/screens/HomeScreen.tsx:151-155 | the keys in order of first appearance; every key present and no other; each holding the weights of its occurrences; all entries together the sum of the weights |
| Tally.WeightsAddUp | src/screens/HomeScreen.tsx:151-155 | the tallies over the distinct keys add up to the sum of all weights |
| Buckets.MonthlySums | src/screens/CompteDetailScreen.tsx:49-64 | the distinct seeded keys in seeding order; the map holds exactly the seeded keys; each holds the amount of the transactions of its month, out-of-window transactions ignored |
| Buckets.SeedKeys | src/screens/CompteDetailScreen.tsx:51-56 | after seeding, the key order is the distinct keys, the object holds exactly the keys, each at 0 |
| Buckets.AddAmounts | src/screens/CompteDetailScreen.tsx:57-62 | after the loop each seeded key holds the amount of the transactions of its month; no key is added |
| Sorting.SinkLast | src/screens/HomeScreen.tsx:325-327 | one insertion step: a sorted prefix becomes a sorted prefix one longer, with the same elements, and the cells after it are left as they were |
| Sorting.AdjacentSortedIsSorted | src/screens/HomeScreen.tsx:325-327 | a sequence ordered at every adjacent pair is ordered at every pair |
| Sorting.SortBy | src/screens/HomeScreen.tsx:325-327 | the array afterwards is a permutation of the array before, ordered by the key |
| Home.LastSixMonths | src/screens/HomeScreen.tsx:52-60 | the loop pushes exactly the six window keys, oldest first, ending at the current month |
| Home.AccountFilter | src/screens/HomeScreen.tsx:145-150 | every transaction without a filter; with one, exactly the selected account's transactions in order |
| Home.CategoryKeys | src/screens/HomeScreen.tsx:153 | one key per transaction, its category or "Autre" when missing or empty |
| Home.CategoryWeight | src/screens/HomeScreen.tsx:151-155 | the tally of a category is the amount of that category's transactions |
| Home.CategoryTotals | src/screens/HomeScreen.tsx:151-155 | `statCalc` has one entry per category used, each the amount of that category's transactions, adding up to the total amount |
| Home.MonthlySeries | src/screens/HomeScreen.tsx:157-164 | six buckets aligned with the window keys, each the amount of its month; six zeros for no transaction; together every in-window amount |
| Home.RecentList | src/screens/HomeScreen.tsx:191-194 | the account-filtered recent transactions, permuted into newest-first date order |
| FinanceAnalysis.Last6Months | src/screens/tabs/FinanceAnalysisTab.tsx:18-28 | the loop pushes exactly the six window keys and the label of each window month, oldest first |
| FinanceAnalysis.Series | src/screens/tabs/FinanceAnalysisTab.tsx:32-42 | one value per key, each the amount of the transactions of that kind whose date starts with the key |
| FinanceAnalysis.Revenus | src/screens/tabs/FinanceAnalysisTab.tsx:32-36 | one value per key, each the amount of the credits whose date starts with the key |
| FinanceAnalysis.Depenses | src/screens/tabs/FinanceAnalysisTab.tsx:38-42 | one value per key, each the amount of the debits whose date starts with the key |
| FinanceAnalysis.SeriesSnoc | src/screens/tabs/FinanceAnalysisTab.tsx:32-42 | one more transaction adds its amount to the bucket of its month in the series of its kind, and to no other value |
| FinanceAnalysis.IgnoredTransaction | src/screens/tabs/FinanceAnalysisTab.tsx:32-42 | a transaction that is neither credit nor debit, or is outside the window, changes neither series |
| FinanceAnalysis.NetFlow | src/screens/tabs/FinanceAnalysisTab.tsx:44 | same length as the series; each value income minus expenses of that month |
| FinanceAnalysis.NetFlowTotal | src/screens/tabs/FinanceAnalysisTab.tsx:44 | the net flows add up to total income minus total expenses |
| FinanceAnalysis.SimulateBalance | src/screens/tabs/FinanceAnalysisTab.tsx:46-50 | one balance per month: the first is 1000 plus the first flow, each later one the previous plus its flow, i.e. 1000 plus the prefix sum |
| FinanceAnalysis.SimulateBalanceExample | src/screens/tabs/FinanceAnalysisTab.tsx:46-50 | flows [70, -10] give balances [1070, 1060] |
| FinanceAnalysis.AnyBelowIff | src/screens/tabs/FinanceAnalysisTab.tsx:52 | `some(v => v < bound)` holds exactly when some element is below the bound |
| FinanceAnalysis.LowBalanceAlert | src/screens/tabs/FinanceAnalysisTab.tsx:52 | the low-balance alert holds iff some simulated balance is below 200 |
| FinanceAnalysis.ExpenseDominates | src/screens/tabs/FinanceAnalysisTab.tsx:53-55 | the alert holds iff expenses are positive and either all movements sum to 0 (division by zero gives +Infinity) or expenses exceed 80 % of a positive total |
| FinanceAnalysis.ExpenseDominatesExamples | src/screens/tabs/FinanceAnalysisTab.tsx:55 | 100 of expenses against 10 of income raise the alert; 50 against 50 do not |
| FinanceAnalysis.ExpenseDominatesQuarter | src/screens/tabs/FinanceAnalysisTab.tsx:53-55 | with no negative income, the alert holds iff expenses are positive and income is below a quarter of them |
| FinanceAnalysis.NegativeIndices | src/screens/tabs/FinanceAnalysisTab.tsx:58-60 | strictly increasing indices, each of a negative flow, containing every negative flow |
| FinanceAnalysis.NegativeMonths | src/screens/tabs/FinanceAnalysisTab.tsx:58-60 | the labels at exactly the negative-flow indices, in month order; empty iff no flow is negative |
| FinanceAnalysis.AllClear | src/screens/tabs/FinanceAnalysisTab.tsx:63 | all clear iff no month has a negative net flow, no simulated balance is below 200 and expenses do not dominate |
| FinanceAnalysis.Analyze | src/screens/tabs/FinanceAnalysisTab.tsx:18-63 | the whole tab: window keys, the label of each window month, both series, flows, balances as prefix sums, low-balance alert iff a balance is below 200, the expense alert, the negative months, and all-clear iff no negative flow, no low balance and no expense alert |
| CompteDetail.DaysInMonth | src/screens/CompteDetailScreen.tsx:52-53 | between 28 and 31 days, 29 exactly for February of a leap year |
| CompteDetail.SetMonthTarget | src/screens/CompteDetailScreen.tsx:53 | a valid month exactly `i` months before the current one |
| CompteDetail.SetMonthTargetIsBack | src/screens/CompteDetailScreen.tsx:53 | the targeted month is the window month `i` steps back |
| CompteDetail.SetMonthBack | src/screens/CompteDetailScreen.tsx:52-54 | `setMonth` on today lands on a valid month with a four-digit year |
| CompteDetail.AsWrittenMonths | src/screens/CompteDetailScreen.tsx:51-54 | the seeding loop as written reaches six valid months |
| CompteDetail.AsWrittenKeys | src/screens/CompteDetailScreen.tsx:51-55 | the seeding loop as written produces six keys |
| CompteDetail.AsWrittenEarlyInMonth | src/screens/CompteDetailScreen.tsx:51-56 | up to the 28th of the month the as-written keys are exactly the six window keys |
| CompteDetail.AsWrittenLosesMonths | src/screens/CompteDetailScreen.tsx:51-56 | on 31 October 2026 the keys are May, July, July, August, October, October: four buckets, June missing |
| CompteDetail.MonthlyDataAsWritten | src/screens/CompteDetailScreen.tsx:49-70 | as written: one label and one value per distinct seeded key, each value the amount of that month |
| CompteDetail.MonthlyData | src/screens/CompteDetailScreen.tsx:49-70 | corrected: six labels and six values in window order, each value the amount of that month, zeros for no transaction, adding up to every in-window amount |
| ProductUsage.ProductKeys | src/screens/tabs/ProductUsageTab.tsx:39 | one key per transaction, its product or "Autre" when missing or empty |
| ProductUsage.CountPositive | src/screens/tabs/ProductUsageTab.tsx:38-41 | a product some transaction uses is counted at least once |
| ProductUsage.ProductWeight | src/screens/tabs/ProductUsageTab.tsx:38-41 | the tally of a product is the number of transactions using it |
| ProductUsage.CountProducts | src/screens/tabs/ProductUsageTab.tsx:37-44 | one entry per product in order of first use, each the number of transactions using it, at least 1; the counts add up to the number of transactions; none for no transaction |
| ProductUsage.ProductEntries | src/screens/tabs/ProductUsageTab.tsx:36-44 | the same over the account's transactions, with `total` their number; no entry when `total` is 0 |
| ProductUsage.Dominant | src/screens/tabs/ProductUsageTab.tsx:55 | the first entry whose share is above one half, with JavaScript division; none iff no entry passes |
| ProductUsage.OneCountBound | src/screens/tabs/ProductUsageTab.tsx:43 | with non-negative counts, no entry exceeds their sum |
| ProductUsage.TwoCountsBound | src/screens/tabs/ProductUsageTab.tsx:43 | with non-negative counts, two different entries together do not exceed their sum |
| ProductUsage.AtMostOneDominant | src/screens/tabs/ProductUsageTab.tsx:55 | when the counts add up to `total`, no two entries are both above one half |
| ProductUsage.OthersAtMostHalf | src/screens/tabs/ProductUsageTab.tsx:55 | beside an entry above one half, `total` is positive and every other entry is at most half of it |
| ProductUsage.MajorityProduct | src/screens/tabs/ProductUsageTab.tsx:36-55 | an entry above one half is a product used by more than half of the transactions, and every other product by at most half |
| ProductUsage.NoMajorityProduct | src/screens/tabs/ProductUsageTab.tsx:36-55 | when no entry is above one half, no product is used by more than half of the transactions |
| ProductUsage.DominantProduct | src/screens/tabs/ProductUsageTab.tsx:36-55 | the dominant product is used by more than half of the account's transactions, its count is its number of uses, every other product is used by at most half; when there is none, no product is used by more than half, and there is none for an account without transactions |
| ProductUsage.DisplayedRecommendations | src/screens/tabs/ProductUsageTab.tsx:77 | all recommendations once expanded, else the first `min(3, n)` |
| ProductUsage.RecommendationToggle | src/screens/tabs/ProductUsageTab.tsx:93 | the toggle shows iff there are more than three; without it both states list every recommendation |
| GeneralInfo.MaxValue | src/screens/tabs/GeneralInfoTab.tsx:21 | none iff the list is empty; otherwise an element of the list at least every element |
| GeneralInfo.FindIndex | src/screens/tabs/GeneralInfoTab.tsx:22 | -1 iff the value is absent; otherwise the first index holding it |
| GeneralInfo.MaxIndex | src/screens/tabs/GeneralInfoTab.tsx:21-22 | -1 for an empty list; otherwise the smallest index of a largest value |
| GeneralInfo.MaxMonth | src/screens/tabs/GeneralInfoTab.tsx:21-23 | "-" without values; otherwise "-" or the label of a month holding a largest value |
| GeneralInfo.MaxMonthIsBusiest | src/screens/tabs/GeneralInfoTab.tsx:21-23 | with one non-empty label per value, the busiest month is the label of a largest value, the first when several tie |
| GeneralInfo.MaxMonthDash | src/screens/tabs/GeneralInfoTab.tsx:23 | no values, or no label at the busiest index, gives "-" |
| GeneralInfo.IbanShown | src/screens/tabs/GeneralInfoTab.tsx:30 | a dash iff the IBAN is missing or empty; otherwise the IBAN |
| GeneralInfo.SoldeShown | src/screens/tabs/GeneralInfoTab.tsx:33-35 | a dash iff the balance is missing; otherwise the balance with the currency, or with "" when the currency is missing |
| GeneralInfo.OpeningShown | src/screens/tabs/GeneralInfoTab.tsx:38-39 | a dash iff the opening date is missing or empty; otherwise that date |
| GeneralInfo.EmptyAccountShowsDashes | src/screens/tabs/GeneralInfoTab.tsx:30-39 | an account with no field shows three dashes |
| TransactionsScreen.CategoryFields | src/screens/TransactionsScreen.tsx:89 | one field per transaction, its category, or "" when it has none |
| TransactionsScreen.RawCategories | src/screens/TransactionsScreen.tsx:89 | an order-preserving subsequence of the category fields keeping every non-empty category as often as it occurs and no empty one; contains exactly the categories in use |
| TransactionsScreen.Categories | src/screens/TransactionsScreen.tsx:89-91 | "Toutes" first, then the distinct categories in order of first use, each used category exactly once, or "Autres" alone when none is used |
| TransactionsScreen.CategoriesInFirstUseOrder | src/screens/TransactionsScreen.tsx:89-91 | of two chips, the earlier one's category occurs in the transactions before any occurrence of the later one's |
| Common.DistinctFirstOccurrence | src/screens/TransactionsScreen.tsx:90 | `Array.from(new Set(s))` lists the elements in order of first occurrence: an earlier element occurs before every occurrence of a later one |
| TransactionsScreen.Base | src/screens/TransactionsScreen.tsx:106-109 | every transaction for "Toutes"; otherwise exactly those of the selected category, in order |
| TransactionsScreen.MatchesSearch | src/screens/TransactionsScreen.tsx:111 | a transaction matches iff the lower-cased search occurs at some position of its lower-cased description |
| Common.ContainsIffOccurs | src/screens/TransactionsScreen.tsx:111 | `includes` holds iff the substring occurs at some position |
| TransactionsScreen.Filtered | src/screens/TransactionsScreen.tsx:110-112 | an order-preserving subsequence of the base keeping exactly the elements whose lower-cased description contains the lower-cased search |
| TransactionsScreen.FilteredMembership | src/screens/TransactionsScreen.tsx:105-114 | a transaction is listed iff it is in the selected category (or "Toutes") and matches the search |
| TransactionsScreen.EmptySearchKeepsBase | src/screens/TransactionsScreen.tsx:110-112 | an empty search keeps the whole base |
| TransactionsScreen.ResetShowsAll | src/screens/TransactionsScreen.tsx:180-183 | after reset (search "" and "Toutes") every transaction is listed |
| TransactionsScreen.SearchIgnoresCase | src/screens/TransactionsScreen.tsx:111 | a search and its lower-cased form list the same transactions |
| TransactionsScreen.TrendFiltered | src/screens/TransactionsScreen.tsx:116-124 | the trend unchanged for "Toutes"; otherwise the same months, each total the amount of that category's transactions in that month |
| TransactionsScreen.OtherTransactionIgnored | src/screens/TransactionsScreen.tsx:118-124 | a transaction of another category, or outside every trend month, changes no restricted total |
| TransactionsScreen.SortTrend | src/screens/TransactionsScreen.tsx:93-95 | the server's points permuted into ascending month order |
| CompteScreen.DeviseEmoji | src/screens/CompteScreen.tsx:32-40 | EUR, USD, TND and MAD after upper-casing each get their emoji; exactly the other codes get the card |
| CompteScreen.DeviseEmojiIgnoresCase | src/screens/CompteScreen.tsx:33 | lower-casing or upper-casing the code does not change its emoji |
| CompteScreen.DeviseEmojiExamples | src/screens/CompteScreen.tsx:32-40 | "eur", "Usd", "tnd" and "MAD" get their currency's emoji; "GBP" gets the card |
| CompteScreen.AccountMatches | src/screens/CompteScreen.tsx:100-101 | an account matches iff the lower-cased search occurs in its lower-cased IBAN or in its lower-cased currency |
| CompteScreen.FilterAccounts | src/screens/CompteScreen.tsx:99-102 | an order-preserving subsequence keeping exactly the accounts whose IBAN or currency matches |
| CompteScreen.AccountListedIff | src/screens/CompteScreen.tsx:99-102 | an account is listed iff its lower-cased IBAN or currency contains the lower-cased search |
| CompteScreen.EmptySearchListsAll | src/screens/CompteScreen.tsx:99-102 | an empty search lists every account |
| CompteScreen.EmptyMessageIff | src/screens/CompteScreen.tsx:128-129 | "Aucun compte trouvé." shows iff no account matches |
| Prediction.WithColors | src/screens/PredictionScreen.tsx:85-90 | same length; forecast `i` gets palette colour `i mod 10`, every other field unchanged |
| Prediction.ColorsRepeatEveryTen | src/screens/PredictionScreen.tsx:88 | forecasts ten places apart share their colour |
| Prediction.FirstTenColorsDiffer | src/screens/PredictionScreen.tsx:88 | no two of the first ten forecasts share a colour |
| Prediction.PieMatchesLegend | src/screens/PredictionScreen.tsx:169 | after colouring, each pie slice has the colour of its legend dot, palette colour `i mod 10` |
| Prediction.PieFill | src/screens/PredictionScreen.tsx:169 | the forecast's own colour when set and non-empty, else palette colour `i mod 10`; never empty |
| Prediction.Total | src/screens/PredictionScreen.tsx:95-98 | the total is the sum of the predicted amounts |
| Prediction.TotalSnoc | src/screens/PredictionScreen.tsx:95-98 | one more forecast adds its prediction to the total |
| Prediction.TotalWithColors | src/screens/PredictionScreen.tsx:85-99 | the total of the coloured list is the sum of the server's predictions |
| Prediction.TotalNonNegative | src/screens/PredictionScreen.tsx:95-98 | with no negative prediction the total is not negative |
| Prediction.EachAtMostTotal | src/screens/PredictionScreen.tsx:179 | with no negative prediction each one lies between 0 and the total, so for a positive total each legend share is between 0 and 100 % |
| Prediction.DisplayedLegend | src/screens/PredictionScreen.tsx:112 | every forecast once expanded, else the first `min(4, n)` |
| Prediction.LegendToggle | src/screens/PredictionScreen.tsx:192 | the toggle shows iff there are more than four; without it both states list every forecast; folded with it, exactly four |
| Prediction.Evolution | src/screens/PredictionScreen.tsx:211-214 | prediction minus history when there is history, 0 otherwise |
| Prediction.BadgeOf | src/screens/PredictionScreen.tsx:215-223 | "Hausse" iff evolution > 5, "Baisse" iff evolution < -5, "Stable" iff it lies in [-5, 5] |
| Prediction.NoHistoryIsStable | src/screens/PredictionScreen.tsx:211-223 | a forecast without history is always "Stable" |
| Prediction.BadgeIgnoresColor | src/screens/PredictionScreen.tsx:210-223 | colouring does not change a forecast's badge |
| Prediction.BadgeMonotone | src/screens/PredictionScreen.tsx:215-223 | with the same history, a larger prediction never gives a lower badge |

## Left out

- Rendering, styles, animations and charts: every JSX block, the pie and bar colours of the home and product tabs, the emoji of each category, and the `toFixed` and percentage strings.
- Network and storage: the `api.get` calls are replaced by their results, passed in as parameters. Their error paths log the error, and on the home screen (`src/screens/HomeScreen.tsx:171-173`) also show an alert.
- Clock and locale: `new Date()` becomes a reference month (or a day, for the as-written account-detail loop). Month names from `toLocaleDateString`/`toLocaleString` become a label function parameter. The prediction screen's `moisNom` and its date row are not modelled.
- Months.WindowKeys: does not model the `toISOString()` shift of `src/screens/HomeScreen.tsx:56-57` and `src/screens/tabs/FinanceAnalysisTab.tsx:23-24`. Local midnight on the 1st is converted to UTC there, which gives the previous month's key east of UTC. The model is the intended local-month rollover.
- CompteDetail.SetMonthBack: models the day-of-month overflow of `setMonth`, but not the time of day that `toISOString()` converts to UTC.
- Floating point: amounts are exact reals, with no rounding, NaN or Infinity. The two ratio tests (`src/screens/tabs/FinanceAnalysisTab.tsx:55`, `src/screens/tabs/ProductUsageTab.tsx:55`) model the zero denominator as JavaScript does (`x / 0` is +Infinity for positive `x`, NaN for 0).
- GeneralInfo.SoldeShown: `typeof solde === 'number'` also holds for NaN, which the model has no value for. A balance is either a real or missing.
- GeneralInfo.MaxValue: `Math.max` over NaN is not modelled, and neither is the empty list's `-Infinity`, which the model represents as `None`.
- Common.Lower: case folding covers ASCII and the Latin-1 letters (so "É"/"é" in "Crédit"/"Débit"). Other Unicode case mappings are not modelled.
- Tally.Accumulate: does not model that JavaScript lists integer-like object keys (e.g. a category named "12") first. Keys are listed in insertion order.
- Tally.Accumulate: does not model keys that name `Object.prototype` members. For a category or product such as "toString" or "constructor", `statCalc[cat] || 0` (`src/screens/HomeScreen.tsx:154`) and `produitMap[key] || 0` (`src/screens/tabs/ProductUsageTab.tsx:40`) start from the inherited function, not from 0. The model starts every key from 0.
- Prediction.EachAtMostTotal: when every prediction is 0 the total is 0 and `item.prediction / total * 100` (`src/screens/PredictionScreen.tsx:179`) is NaN. The model has no NaN, and the percentage bound holds only for a positive total.
- Sorting.SortBy: does not promise stability. The comparators of `src/screens/HomeScreen.tsx:325-327` and `src/screens/TransactionsScreen.tsx:94` compare parsed dates. The model compares the ISO strings lexicographically, which orders well-formed `yyyy-MM-dd` and `yyyy-MM` strings the same way.
- Home.RecentList: `.sort` on `transactionsFiltrees` also reorders the React state array it aliases when no filter is set. The model returns the sorted copy only.
- TransactionsScreen.SortTrend: sorts a fresh array built from the server's list. The aliasing of `monthly.data` is not modelled.
- Ledger.Transaction: `compteBancaire` is always present, as `src/navigation/routes.ts:13-16` types it. The `?.` of `src/screens/HomeScreen.tsx:148,193` is then a plain field access.
- TransactionsScreen.Base: a category literally named "Toutes" cannot be selected on its own. Selecting it shows every transaction, as in the source.
- `allTransactionCount` (`src/screens/tabs/GeneralInfoTab.tsx:43`) is a value passed through for display. There is nothing to model.
- The server's predictions and recommendations are inputs. Only their client-side post-processing is modelled.

## Findings

| source | as written | input that shows it | evidently intended | confidence | as-written member | corrected member |
|---|---|---|---|---|---|---|
| src/screens/CompteDetailScreen.tsx:51-56 | `d.setMonth(d.getMonth() - i)` on today's date keeps the day of the month, so a day the target month lacks rolls over into the following month | today = 31 October 2026: the keys are 2026-05, 2026-07, 2026-07, 2026-08, 2026-10, 2026-10, so there are four buckets and June and September are missing | six buckets, one for each of the last six calendar months | not executed | CompteDetail.AsWrittenLosesMonths | CompteDetail.MonthlyData |
