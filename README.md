# Tally loyalty ledger in Dafny

This project models the data layer of Tally, a small customer-loyalty ledger. Tally records
customers and their sales. It stamps every sale with loyalty points when the sale is recorded. It
derives dashboard metrics from the two lists: revenue and transaction counts for today and
for this month, the average sale, the number of customers due a reward, and a top-N ranking.

The browser's `localStorage` is modelled as a `Storage.Store` object with one field per
storage key: customers, sales and loyalty settings. The storage operations follow the source's
read-modify-write shape:

- `addSale`, `addCustomer`, `updateCustomer` and `deleteCustomer` are methods. Each may
  modify only its own key, and each states the whole new content of that key.
- `saveLoyaltySettings` overwrites the settings key, but only after all its checks pass.
- The getters are functions of the stored value.

The two dashboard loops in the source build a `Map` of points per customer and then count
or collect rows. Both are methods proved against specification functions (`PendingCustomers`,
`Ranked`, `TopCustomers`). The source's `Array.prototype.sort` is stable. It is modelled by
`StableSort.SortDesc`, an insertion sort proved to give a permutation in non-increasing key
order that keeps the input order among equal keys. The bottom-navigation tab table and its two
routing rules are pure functions.

Modules, one per source file, plus shared ones:

- `Wrappers`: `Option` and `Result`.
- `Records`: customers, sales, timestamps, the thrown errors and their messages, and a
  source of fresh ids.
- `Storage`: the three storage keys.
- `SaleStorage`, `CustomerStorage`, `LoyaltySettings`, `LoyaltyCalculator`,
  `DashboardCalculator` and `BottomNav`: the source modules of the same names.
- `StableSort`: the stable descending sort used by the calculators.

The model follows the code in these places:

- The point rate (1000 currency units per point) and the reward threshold (50) are constants
  in the code: `src/utils/saleStorage.js:2`, `src/utils/loyaltyCalculator.js:1` and
  `src/utils/dashboardCalculator.js:109`. They are not read from the settings store. The model
  uses these constants, so saved settings affect nothing but the settings key itself.
- `updateCustomer` merges every property of the patch, not only `name`, `phone` and `notes`.
  So a patch can overwrite `id` and `dateAdded`. `CustomerStorage.Merge` models that.
- `addSale` accepts some text amounts that are not positive numbers, and stores them as they
  parse. `SaleStorage.AddSale` models that; `SaleStorage.AddSaleChecked` is the corrected
  variant (see Findings).

## Model

| member | source | states |
|---|---|---|
| Storage.Store.constructor | src/utils/saleStorage.js:37-40 | Nothing is stored under any of the three keys at first. |
| Records.FreshId | src/utils/customerStorage.js:61-63 | The id is non-empty and differs from every id already taken. This is the freshness `generateId` is relied on for. |
| SaleStorage.CheckAmountAsWritten | src/utils/saleStorage.js:5-12 | A missing, NaN, zero or negative raw amount gives "Amount must be greater than zero". Otherwise a failed `parseFloat` gives "Amount must be a valid number". It succeeds exactly when both guards pass, and then yields the parsed number. |
| SaleStorage.CheckAmount | src/utils/saleStorage.js:5-12 | Corrected check: every accepted amount is positive. It gives the same result as the checks as written on every input those reject and on every input whose parsed amount is positive. A non-positive parsed amount is rejected with "Amount must be greater than zero". |
| SaleStorage.PointsFor | src/utils/saleStorage.js:18-20 | With a truthy customer id, `p*1000 <= amount < (p+1)*1000`, i.e. floor(amount / 1000). Otherwise 0. Non-negative for a non-negative amount. |
| SaleStorage.PointsExamples | src/utils/saleStorage.js:18-20 | 5500 gives 5, 999 gives 0, 1000 gives 1 and 5250.75 gives 5. A null or empty customer id gives 0. |
| SaleStorage.PointsForThousands | src/utils/saleStorage.js:18-20 | For any non-empty customer id, an amount of exactly k thousand earns exactly k points. |
| SaleStorage.NegativeTextAmountAccepted | src/utils/saleStorage.js:5-29 | `addSale` as written builds a sale of -5 earning -1 points from a text amount whose `Number` is NaN and whose `parseFloat` is -5 ("-5abc"). It builds a sale of 0 from one whose `Number` is 16 and whose `parseFloat` is 0 ("0x10"). The corrected check rejects both. |
| SaleStorage.NewSale | src/utils/saleStorage.js:4-29 | The checks as written: the error cases in the source's order, and success exactly when both guards pass. The sale carries the parsed amount, and `pointsEarned` is the floor rule. Its customer id is the given id, or null when that is falsy. Its description defaults to "". It also carries the given id and timestamp. An accepted numeric amount is positive. Points are non-negative whenever the amount is positive. |
| SaleStorage.NewSaleChecked | src/utils/saleStorage.js:4-29 | Corrected variant: success exactly for a positive parsed amount, so every sale has a positive amount and non-negative points. It equals `NewSale` on every input except those where `NewSale` accepts a non-positive parsed amount, which it rejects with "Amount must be greater than zero". |
| SaleStorage.GetSales | src/utils/saleStorage.js:37-40 | Empty storage reads as `[]`; otherwise the stored list. |
| SaleStorage.AddSale | src/utils/saleStorage.js:4-35 | Returns the `NewSale` for a fresh id. On an error the sales key is unchanged. On success the stored list is the old list with exactly the returned sale appended, and its id differs from every earlier sale's id. The customers and settings keys are untouched. |
| SaleStorage.AddSaleChecked | src/utils/saleStorage.js:4-35 | Corrected variant: returns `NewSaleChecked` for a fresh id. It writes nothing on an error. On success it appends exactly the returned sale, whose amount is positive and whose points are non-negative. Other keys are untouched. |
| CustomerStorage.GetCustomers | src/utils/customerStorage.js:23-26 | Empty storage reads as `[]`; otherwise the stored list. |
| CustomerStorage.FindIndex | src/utils/customerStorage.js:30 | The first position whose id matches, or none exactly when no record has that id. |
| CustomerStorage.Merge | src/utils/customerStorage.js:36-39 | Each field the patch carries replaces the stored one, `id` and `dateAdded` included. Every other field is kept. |
| CustomerStorage.MergeIdempotent | src/utils/customerStorage.js:36-39 | Applying the same patch twice equals applying it once. |
| CustomerStorage.RemoveAt | src/utils/customerStorage.js:53 | `splice(i, 1)`: one shorter, with the records before `i` in place and the ones after shifted down by one. The multiset loses exactly the removed record. |
| CustomerStorage.AddCustomer | src/utils/customerStorage.js:3-21 | Fails with "Name is required" exactly for a falsy name, and then leaves the list unchanged. Otherwise it appends exactly the returned record, with the given name, phone and notes, `dateAdded` = now and an id no earlier record has. Sales and settings are untouched. |
| CustomerStorage.UpdateCustomer | src/utils/customerStorage.js:28-43 | An unknown id throws "Customer with id … not found" and changes nothing. Otherwise only the first matching record is replaced by its merge with the patch, which is returned. Sales and settings are untouched. |
| CustomerStorage.DeleteCustomer | src/utils/customerStorage.js:45-55 | An unknown id throws and changes nothing. Otherwise exactly the first matching record is spliced out and the length drops by one. Sales are untouched, so deletion does not cascade. |
| LoyaltySettings.GetLoyaltySettings | src/utils/loyaltySettings.js:8-33 | Both fields are always integers >= 1. With nothing stored, or nothing parseable, the result is the defaults 1000 and 50. Otherwise each field is kept exactly when it is an integer >= 1 and is replaced by its own default when not. `updatedAt` is present exactly when the stored one is truthy, and is then carried over. |
| LoyaltySettings.IsValidSetting | src/utils/loyaltySettings.js:57-59 | Holds exactly for an integer that is at least 1. |
| LoyaltySettings.ValidSettingExamples | src/utils/loyaltySettings.js:57-59 | 500, 1000 and 25 are valid; 0, -100, -50 and non-integers such as 1000.5 or "fifty" are not. |
| LoyaltySettings.FieldsIndependent | src/utils/loyaltySettings.js:17-28 | Whatever the stored reward threshold, the `pointsPerUnit` and `updatedAt` read back are the same. |
| LoyaltySettings.SaveLoyaltySettings | src/utils/loyaltySettings.js:35-55 | Checks in order: a non-object argument, then an invalid `pointsPerUnit`, then an invalid `rewardThreshold`. Any rejection leaves the stored settings unchanged. On success it stores and returns both fields with `updatedAt` = now, and the next read gives exactly that back. Customers and sales are untouched. |
| LoyaltyCalculator.SalesOf | src/utils/loyaltyCalculator.js:4-5 | The filter keeps only sales of the id, takes nothing from outside the list, and misses none of the id's sales. |
| LoyaltyCalculator.SalesOfMultiplicity | src/utils/loyaltyCalculator.js:4-5 | Each sale of the id is kept as often as it occurs in the list, and every other sale is kept zero times. |
| LoyaltyCalculator.GetCustomerTotalPoints | src/utils/loyaltyCalculator.js:3-7 | A null sales list gives 0. The sum itself is pinned down by the lemmas below: `TotalPointsSingle` for one sale, `TotalPointsSnoc` for each further sale, and `TotalPointsAppend` for joined lists. |
| LoyaltyCalculator.TotalPointsSnoc | src/utils/loyaltyCalculator.js:3-7 | One more sale adds its points exactly when it belongs to the customer. Anonymous sales and other customers' sales add nothing. |
| LoyaltyCalculator.TotalPointsAppend | src/utils/loyaltyCalculator.js:4-6 | The total over two lists joined is the sum of the two totals. |
| LoyaltyCalculator.TotalPointsNonNegative | src/utils/loyaltyCalculator.js:6 | No total is negative when no `pointsEarned` is. |
| LoyaltyCalculator.TotalPointsSingle | src/utils/loyaltyCalculator.js:3-7 | A one-sale list counts that sale's points exactly when it is the customer's. |
| LoyaltyCalculator.TotalPointsPair | src/utils/loyaltyCalculator.js:3-7 | Two sales that both belong to the customer total the sum of their two point values. |
| LoyaltyCalculator.TotalPointsExample | src/utils/loyaltyCalculator.js:3-11 | Sales of 15000 and 8000 linked to a customer earn 15 and 8 points under the floor rule. They total 23, which is below the reward threshold. |
| LoyaltyCalculator.IsRewardAvailable | src/utils/loyaltyCalculator.js:9-11 | Holds exactly when the total is at least 50. |
| LoyaltyCalculator.RewardMonotone | src/utils/loyaltyCalculator.js:9-11 | A larger total never loses reward availability. |
| LoyaltyCalculator.GetCustomerSales | src/utils/loyaltyCalculator.js:13-17 | A null list gives `[]`. Otherwise the result is a permutation of the customer's sales. |
| LoyaltyCalculator.GetCustomerSalesPermutation | src/utils/loyaltyCalculator.js:13-16 | Each sale of the customer comes back as often as it is stored, and no other sale comes back. |
| LoyaltyCalculator.GetCustomerSalesMembers | src/utils/loyaltyCalculator.js:13-15 | Every returned sale is the customer's, and every sale of the customer is returned. |
| LoyaltyCalculator.GetCustomerSalesNewestFirst | src/utils/loyaltyCalculator.js:16 | Creation instants do not increase along the result. Sales with the same instant keep their stored order. |
| StableSort.Insert | src/utils/dashboardCalculator.js:145 | One insertion step: the length grows by one and the multiset gains exactly the inserted element. |
| StableSort.SortDesc | src/utils/dashboardCalculator.js:145 | The sort keeps the length and the multiset: it is a permutation. |
| StableSort.SortDescNonIncreasing | src/utils/dashboardCalculator.js:145 | The sorted keys never increase (comparator `b - a`). |
| StableSort.SortDescStable | src/utils/loyaltyCalculator.js:16 | For every key, the elements with that key keep their input order, as `Array.prototype.sort` is stable. |
| StableSort.InsertBounded | src/utils/dashboardCalculator.js:145 | When `x` and every element of the list are at most `b`, so is every element after the insertion. |
| StableSort.InsertNonIncreasing | src/utils/dashboardCalculator.js:145 | Insertion into a non-increasing list keeps it non-increasing. |
| StableSort.InsertWithKey | src/utils/dashboardCalculator.js:145 | Insertion puts the new element in front of the existing elements with its key, leaving their order alone. |
| StableSort.WithKeyOfPrefix | src/utils/dashboardCalculator.js:148 | The elements of a prefix with a given key are a prefix of the whole list's elements with that key. |
| StableSort.PrefixDominates | src/utils/dashboardCalculator.js:145-148 | In a non-increasing list nothing after a cut has a larger key than anything before it. |
| StableSort.SplitMultiset | src/utils/dashboardCalculator.js:148 | The two halves of a cut make up the whole multiset. |
| DashboardCalculator.IsCurrentMonth | src/utils/dashboardCalculator.js:23-30 | Holds exactly when the year and the month equal now's. |
| DashboardCalculator.MonthIgnoresDay | src/utils/dashboardCalculator.js:23-30 | The day of the date and the day of now do not affect the this-month test. |
| DashboardCalculator.IsToday | src/utils/dashboardCalculator.js:8-30 | Today is exactly this month plus the same day, so every date of today is one of this month. |
| DashboardCalculator.TodaySales | src/utils/dashboardCalculator.js:40 | The today filter is no longer than the list, and holds exactly the listed sales dated today, anonymous ones included. |
| DashboardCalculator.MonthSales | src/utils/dashboardCalculator.js:62 | The this-month filter is no longer than the list, and holds exactly the listed sales dated this month, anonymous ones included. |
| DashboardCalculator.GetTodayRevenue | src/utils/dashboardCalculator.js:37-42 | A null list or an empty list gives 0. With `WindowsSnoc`, each list's revenue is therefore the sum of the amounts of its sales dated today. |
| DashboardCalculator.GetTodayTransactions | src/utils/dashboardCalculator.js:49-52 | A null list or an empty list gives 0. Otherwise it is at most the number of sales. With `WindowsSnoc`, it is the number of sales dated today. |
| DashboardCalculator.GetMonthlyRevenue | src/utils/dashboardCalculator.js:59-64 | A null list or an empty list gives 0. With `WindowsSnoc`, each list's revenue is therefore the sum of the amounts of its sales dated this month. |
| DashboardCalculator.GetMonthlyTransactions | src/utils/dashboardCalculator.js:71-74 | A null list or an empty list gives 0. Otherwise it is at most the number of sales. With `WindowsSnoc`, it is the number of sales dated this month. |
| DashboardCalculator.WindowsSnoc | src/utils/dashboardCalculator.js:37-74 | One more sale adds its amount and one transaction to exactly the windows its date falls in, whoever the customer is. |
| DashboardCalculator.TodayWithinMonth | src/utils/dashboardCalculator.js:37-74 | Today's transactions never outnumber this month's. With no negative amount, 0 <= today's revenue <= this month's revenue. |
| DashboardCalculator.RoundCents | src/utils/dashboardCalculator.js:85 | `Math.round(x*100)/100` is a whole number of cents within (x - 0.005, x + 0.005]: half-up rounding to 2 decimals. It is non-negative for a non-negative x. |
| DashboardCalculator.GetAverageSale | src/utils/dashboardCalculator.js:81-86 | 0 when nothing was sold this month. Otherwise it is the monthly revenue over the monthly count, rounded half-up to cents. |
| DashboardCalculator.AverageNonNegative | src/utils/dashboardCalculator.js:81-86 | With no negative amount the average is not negative. |
| DashboardCalculator.RoundCentsExamples | src/utils/dashboardCalculator.js:85 | 5000 stays 5000, 10/3 becomes 3.33 and 2/3 becomes 0.67. |
| DashboardCalculator.AccumulateStep | src/utils/dashboardCalculator.js:99-103 | One pass of the map-filling loop keeps every looked-up value equal to the loyalty total of the sales seen so far, skipping anonymous sales. |
| DashboardCalculator.PointsByCustomer | src/utils/dashboardCalculator.js:97-103 | The filled map, looked up with `get(id) \|\| 0`, gives each id's loyalty total. |
| DashboardCalculator.PendingCustomers | src/utils/dashboardCalculator.js:105-112 | No more customers are counted than are listed. |
| DashboardCalculator.PendingCustomersSnoc | src/utils/dashboardCalculator.js:107-112 | One more listed customer is counted exactly when its total reaches 50. |
| DashboardCalculator.PendingCustomersMembers | src/utils/dashboardCalculator.js:105-112 | The counted customers are exactly the listed customers for whom `isRewardAvailable` holds, so the literal 50 and the calculator's threshold agree. |
| DashboardCalculator.GetRewardsPendingCount | src/utils/dashboardCalculator.js:94-115 | 0 when either list is null. Otherwise the count of pending customers, and never more than the number of customers. |
| DashboardCalculator.Ranked | src/utils/dashboardCalculator.js:135-142 | Every row has a listed customer with a positive total equal to its loyalty total. Every listed customer with a positive total has a row. |
| DashboardCalculator.RankedSnoc | src/utils/dashboardCalculator.js:137-142 | One more listed customer adds a row exactly when its total is positive. |
| DashboardCalculator.Slice | src/utils/dashboardCalculator.js:148 | `slice(0, end)` is a prefix of length min(end, n), counted back from the end for a negative `end`. |
| DashboardCalculator.GetTopCustomers | src/utils/dashboardCalculator.js:124-149 | `[]` when either list is null. Otherwise the ranked rows, stably sorted by points descending and cut at `limit`, which defaults to 5. |
| DashboardCalculator.TopCustomersBounded | src/utils/dashboardCalculator.js:124-149 | Never more rows than listed customers, nor more than a non-negative `limit`. |
| DashboardCalculator.TopCustomersEntries | src/utils/dashboardCalculator.js:135-142 | Each row has a customer from the list and a positive total equal to that customer's non-anonymous point sum. Ids known only from sales never appear. |
| DashboardCalculator.TopCustomersIsPrefix | src/utils/dashboardCalculator.js:145-148 | The ranking is a prefix of the sorted rows. |
| DashboardCalculator.TopCustomersOrdered | src/utils/dashboardCalculator.js:145 | Rows come in non-increasing order of points. |
| DashboardCalculator.TopCustomersStable | src/utils/dashboardCalculator.js:145-148 | Rows with equal points keep the order of the customer list. |
| DashboardCalculator.TopCustomersAreTop | src/utils/dashboardCalculator.js:145-148 | Kept and dropped rows together are all the ranked rows, and no dropped row has more points than a kept one. |
| BottomNav.FindTab | src/components/BottomNav.jsx:16 | The first tab whose views contain the view, or none exactly when no tab does. |
| BottomNav.ResolveActiveTab | src/components/BottomNav.jsx:3-18 | Always one of the three tab keys; "settings" whenever settings are open. Otherwise the list, detail, form and record-sale views give "customers", and "dashboard" and "settings" are given exactly by their own views. |
| BottomNav.HandleTabClick | src/components/BottomNav.jsx:23-40 | Clicking the active tab does not navigate; clicking another tab of the bar does. The view navigated to is the tab's primary view, its first listed one (`list`, `dashboard` or `settings`). That view is one of the tab's views and resolves back to that tab when settings are closed. |

## Left out

- Storage and serialisation: `localStorage` and `JSON.parse`/`JSON.stringify` are replaced by the fields of `Storage.Store`. A settings value that fails to parse, or parses to `null`, is the single `Unparseable` case. Stored customer and sale lists are assumed well formed.
- Id generation: `generateId` combines the clock with `Math.random`. `Records.FreshId` replaces it with a deterministic id that provably differs from every stored id. The model does not capture the id's format, nor ids of other lists.
- One clock reading per call: each model function takes a single "now". The source calls `new Date()` inside every `isToday` and `isCurrentMonth` test, and `getAverageSale` computes revenue and count separately. Across midnight or a month end the source can therefore compare sales against different days or months within one call. The model does not capture that.
- Clock and date parsing: "now" is a parameter, and timestamps are pre-decomposed into local year, month and day plus an instant that orders them. ISO strings, time zones and dates that fail to parse (a NaN comparator in the sort) are not modelled.
- Floating point: amounts, sums and the average are exact `real`s, so IEEE-754 rounding and `Math.round` on binary fractions are not modelled.
- Amount types: the `amount` argument is missing, a number, NaN or a string (its `Number` and `parseFloat` values given). Booleans, objects and other types are not modelled.
- Customer fields: names, phones, notes and patch values are strings or absent, and a patch carries only the five known fields. Non-string values and extra properties merged in by the spread are not modelled.
- LoyaltySettings.GetLoyaltySettings: a truthy non-string `updatedAt` is not modelled, since stored values are strings or absent.
- LoyaltySettings.SaveLoyaltySettings: requires a non-empty "now" string, as `toISOString` always yields one.
- React rendering, `App.jsx` view state, the forms' text parsing, currency and date formatting and the other UI components are not part of this model.

## Findings

| source | as written | input that shows it | evidently intended | confidence | as-written member | corrected member |
|---|---|---|---|---|---|---|
| src/utils/saleStorage.js:5-12 | The positivity guard tests the raw argument, and `amount <= 0` is false when `Number(amount)` is NaN. The NaN test then checks `parseFloat`, which accepts a numeric prefix. | `addSale({amount: "-5abc", customerId: "c"})` is accepted: it stores a sale of -5 with `pointsEarned` -1. | Every stored amount is positive, so `pointsEarned` is never negative. | not executed | SaleStorage.AddSale, SaleStorage.NegativeTextAmountAccepted | SaleStorage.CheckAmount, SaleStorage.AddSaleChecked |
