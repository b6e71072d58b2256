# Ecommerce analytics: the client data layer in Dafny

A model of the data layer of a small e-commerce analytics dashboard, with proofs about it. The model covers:

- **Sales slice.** The Redux slice holding the shop's products, variants and orders. It also holds the product/variant selection and the fetch status. Its two selectors pick the orders the selection is about.
- **Price slice.** The chosen time frame and the selector that narrows the selected orders to a trailing window ending now.
- **Sales view.** The totals, the per-month buckets with their average unit price, the chronological sort, last-two-month growth and the chart maximum.
- **Price view.** The totals, the average, lowest and highest price, the per-price distribution sorted by price, and the bar heights.
- **Auth slice.** The slice as a state machine.
- **Middleware.** The request middleware that guards `/api/shop/...`: pass, 401 or 403.
- **Sign-in endpoint.** The validation and lookup cascade of `POST /api/auth`: 405, 400, 500, 404 or 200.

Modules follow the program:

- `SalesSlice`, `PriceSlice`, `SalesAnalytics`, `PriceAnalytics`, `AuthSlice`, `Middleware` and `AuthApi` model the source files.
- `Orders` holds the rows the views read.
- `Grouping` is the keyed `reduce` that both views perform.
- `Sorting` is a stable sort by an integer key.
- `Calendar` supplies proleptic Gregorian day numbers.
- `Common` holds `Option`, filtering and sums.

Representation choices:

- **Prices.** Prices are integer cents, so `Math.round(price * 100) / 100` is the identity. Averages, percentages and bar heights are exact `real`s.
- **Dates.**
  - `new Date(text)` is a parameter `parse: string -> Option<ValidDate>`; `None` is an Invalid Date.
  - The clock is two parameters: `today` and `timeOfDay`, the milliseconds since midnight.
  - A parsed order date is midnight of its day.
- **Null values.** JavaScript `null`/`undefined` is `None`.
- **Accumulator objects.** A JS object used as an accumulator is a sequence of entries in key-insertion order. The month keys (`"3/2024"`) are not integer-like, so insertion order is also `Object.entries` order. The price keys may be integer-like, which changes `Object.values` order, but the result is sorted by price straight after. The prices are distinct, so the sorted result does not depend on that order.
- **External inputs.** `JSON.parse` of the auth cookie is the parameter `decode`. The database behind the sign-in endpoint is two parameters: whether the connection opened, and a `lookup` from name to query outcome.

Behaviour of the code worth knowing, each fact stated by the members named:

- **No selection.** With no product or variant selected, `selectSalesData` returns no orders (src/store/slices/salesSlice.js:126; `SalesSlice.SalesData`).
- **Variant/product consistency.** `selectVariant` stores its payload without checking that the variant belongs to the selected product (src/store/slices/salesSlice.js:48-50; `SalesSlice.SelectVariant`).
- **Price points.** A price point holds only its price, `count` and `revenue`, and `count` is the units sold at that price, not a number of orders (src/components/analytics/PriceAnalytics.js:32-39; `PriceAnalytics.PricePointsFaithful`).
- **Window start day.** An order's date parses to midnight, while the window's start carries the current time of day. So an order dated exactly on the start day is kept only at midnight (src/store/slices/priceSlice.js:52-79; `PriceSlice.SevenDayBoundary`).

## Model

| member | source | states |
|---|---|---|
| SalesSlice.SelectProduct | src/store/slices/salesSlice.js:44-47 | the product is set to the payload, the variant is always reset to none, and data, status and error are untouched |
| SalesSlice.SelectVariant | src/store/slices/salesSlice.js:48-50 | only `selectedVariant` changes: every other field is as before |
| SalesSlice.ClearSelection | src/store/slices/salesSlice.js:51-54 | product and variant become none and nothing else changes |
| SalesSlice.Pending | src/store/slices/salesSlice.js:58-61 | status becomes loading, the error is cleared, every other field is kept |
| SalesSlice.StampDates | src/store/slices/salesSlice.js:68-80 | same length as the payload; every order ends with a non-empty date; orders that had one are unchanged; the others get today's date `stamp` and differ in nothing else |
| SalesSlice.Fulfilled | src/store/slices/salesSlice.js:62-83 | status succeeded, error none, absent arrays become empty; the payload's orders in order, each kept if it had a date and otherwise given today's date `stamp` with every other field kept; selection kept |
| SalesSlice.Rejected | src/store/slices/salesSlice.js:84-87 | status failed with the payload as error; products, variants, orders and selection are preserved |
| SalesSlice.InitialConsistent | src/store/slices/salesSlice.js:30-38 | the initial state has no error and no orders, so it is consistent |
| SalesSlice.ReducePreservesConsistent | src/store/slices/salesSlice.js:43-88 | `Reduce`, the slice reducer dispatching each of the six actions (salesSlice.js:43-88), keeps "an error only with failed, every stored order dated" |
| SalesSlice.RunConsistent | src/store/slices/salesSlice.js:30-89 | every state reachable from the initial one by dispatched actions is consistent |
| SalesSlice.ProductVariants | src/store/slices/salesSlice.js:95-100 | empty without a selected product; otherwise an order-preserving subsequence holding exactly the variants of that product, with their multiplicities |
| SalesSlice.VariantIdsOf | src/store/slices/salesSlice.js:114-116 | an id is listed exactly when some variant of the product has it |
| SalesSlice.SelectionOrders | src/store/slices/salesSlice.js:107-126 | an order-preserving subsequence of the orders holding each order exactly as often as stored if the selection is about it (variant first, else the product's variants), and otherwise not at all |
| SalesSlice.SalesData | src/store/slices/salesSlice.js:102-127 | empty with nothing selected; otherwise exactly the relevant orders, in stored order and with their multiplicities |
| PriceSlice.SetTimeFrame | src/store/slices/priceSlice.js:11-13 | the payload is stored verbatim, without validation |
| PriceSlice.WindowStart | src/store/slices/priceSlice.js:50-67 | 7, 30 or 90 days back; for `year`, back by the length of the year holding the February stepped over (this year's from March on, last year's before), so 365 or 366 days; 30 days back for any other frame |
| PriceSlice.InWindowDays | src/store/slices/priceSlice.js:70-79 | `InWindow`, the date test of the `filter` (priceSlice.js:70-79), in whole days: it holds exactly when the order's date parses, its day is at most today, and it is after the start day or on it at midnight |
| PriceSlice.SevenDayBoundary | src/store/slices/priceSlice.js:52-79 | under `7days` an order dated seven days ago is in the window exactly at midnight, one dated eight days ago never |
| PriceSlice.PriceData | src/store/slices/priceSlice.js:19-80 | empty with nothing selected; a subsequence of the sales selection; every order returned has a parsed date between the start day and today; each order occurs as often as stored exactly when relevant and in the window |
| PriceSlice.WiderWindowKeepsOrders | src/store/slices/priceSlice.js:50-79 | a window starting no later keeps every order the narrower one keeps, as a subsequence |
| PriceSlice.FramesNest | src/store/slices/priceSlice.js:52-67 | 7 days within 30 days within 90 days within a year, and so 7 days within a year, each as an order-preserving subsequence |
| Calendar.YearBack | src/store/slices/priceSlice.js:62-64 | `setFullYear(year - 1)` moves a valid date back by exactly the length of the year holding the February it steps over (365 or 366 days), day overflow of 29 February included |
| Calendar.MonthStartOrder | src/components/analytics/SalesAnalytics.js:50-57 | every day of an earlier month precedes the first day of a later month |
| Calendar.YearStep | src/store/slices/priceSlice.js:62-64 | the next year starts 365 days later, 366 after a Gregorian leap year |
| Calendar.MonthStep | src/components/analytics/SalesAnalytics.js:50 | the next month starts right after the last day of this month, across a year end too |
| Calendar.MonthIndexInjective | src/components/analytics/SalesAnalytics.js:50 | two different months (`month/year` keys) have different positions in the month numbering |
| Calendar.InMonthOrder | src/components/analytics/SalesAnalytics.js:50-57 | of two days in two different months, the first is earlier exactly when its month is earlier, and the days differ |
| Common.Filter | src/store/slices/salesSlice.js:109-111 | `filter` keeps exactly the elements satisfying the predicate, with their multiplicities, in order |
| Common.FilterMonotone | src/store/slices/priceSlice.js:70-79 | filtering by a weaker predicate gives a supersequence |
| Common.SumOfPermutation | src/components/analytics/SalesAnalytics.js:78-87 | rearranging a sequence, as a sort does, keeps the sum |
| Sorting.SortBy | src/components/analytics/SalesAnalytics.js:87 | the result is sorted by the key, a permutation of the input, and keeps pairwise-distinct keys distinct |
| Sorting.SortDistinctIsStrict | src/components/analytics/PriceAnalytics.js:43 | sorting items with distinct keys gives strictly ascending keys |
| Grouping.IndexOfKey | src/components/analytics/SalesAnalytics.js:52 | finds the entry with the key when there is one, and reports none only when no entry has it |
| Grouping.AddOrderFaithful | src/components/analytics/SalesAnalytics.js:52-65 | one accumulation step keeps every entry summing exactly its key's orders: the matching entry grows, or a new entry opens for a key not yet seen |
| Grouping.AddOrderSums | src/components/analytics/SalesAnalytics.js:63-65 | one accumulation step adds the order's revenue, its quantity and one order to the totals over all entries |
| Grouping.GroupByFaithful | src/components/analytics/SalesAnalytics.js:38-68 | `GroupBy`, the keyed accumulation of SalesAnalytics.js:38-68 and PriceAnalytics.js:29-41, gives one entry per key that occurs and none for a key no order has; each entry sums exactly the revenue, units and count of the orders with its key, and was created by one of them |
| Grouping.MembersExact | src/components/analytics/SalesAnalytics.js:50-65 | an order belongs to exactly the bucket of its own key, with its multiplicity |
| Grouping.GroupByConserves | src/components/analytics/PriceAnalytics.js:29-41 | the entries' revenue, units and counts add up to those of the keyed orders |
| Grouping.KeyedSplit | src/components/analytics/SalesAnalytics.js:34-48 | `TotalUnits` and `TotalRevenue`, the `reduce` sums of SalesAnalytics.js:34-35, split into the keyed orders' totals plus the skipped orders' totals |
| Orders.AverageUnitPrice | src/components/analytics/SalesAnalytics.js:71-73 | revenue / units when units > 0, otherwise 0 |
| SalesAnalytics.EntriesDated | src/components/analytics/SalesAnalytics.js:39-57 | every month entry was created by an order whose date is present and parses, so its timestamp is that order's date |
| SalesAnalytics.RowOfEntry | src/components/analytics/SalesAnalytics.js:52-85 | a month entry becomes a row with that month's revenue, units and orders, stamped with a day inside that month |
| SalesAnalytics.RowsFaithful | src/components/analytics/SalesAnalytics.js:38-73 | `SalesByMonth`, the per-month rows of SalesAnalytics.js:38-73: each row's revenue, units and order count are those of the orders dated in its month, and it has at least one such order (no empty month rows); its timestamp lies in its month; its average is revenue / units; months are unique |
| SalesAnalytics.DistinctStamps | src/components/analytics/SalesAnalytics.js:50-61 | rows of distinct months, each stamped within its month, have distinct timestamps |
| SalesAnalytics.TimestampSortIsChronological | src/components/analytics/SalesAnalytics.js:78-87 | sorting such rows by timestamp orders them strictly by calendar month |
| SalesAnalytics.SortedIsChronological | src/components/analytics/SalesAnalytics.js:57-87 | `SortedSalesByMonth`, the timestamp sort of SalesAnalytics.js:78-87, is strictly increasing by calendar month |
| SalesAnalytics.MonthlyTotals | src/components/analytics/SalesAnalytics.js:34-68 | bucket revenue, units and order counts sum to those of the dated orders; the top-line totals are these plus the undated orders |
| SalesAnalytics.DatedOrderHasItsMonth | src/components/analytics/SalesAnalytics.js:44-61 | every order with a valid date has the row of its own month |
| SalesAnalytics.PercentChange | src/components/analytics/SalesAnalytics.js:98-104 | the change times the previous value is 100 times the difference; exactly 100 when the previous value is 0 |
| SalesAnalytics.CalculateGrowth | src/components/analytics/SalesAnalytics.js:92-107 | zero growth for fewer than two months; otherwise the percentage change of revenue and of units from the second-to-last to the last month |
| SalesAnalytics.GrowthUsesLastTwo | src/components/analytics/SalesAnalytics.js:95-96 | months before the last two do not affect growth |
| SalesAnalytics.GrowthExample | src/components/analytics/SalesAnalytics.js:98-100 | revenue going from 100 to 150 is 50% growth |
| SalesAnalytics.MaxRevenue | src/components/analytics/SalesAnalytics.js:132-134 | 0 with no months; otherwise at least every month's revenue and equal to one of them |
| PriceAnalytics.AveragePrice | src/components/analytics/PriceAnalytics.js:19-23 | total revenue / total units when units > 0, otherwise 0 |
| PriceAnalytics.MinPrice | src/components/analytics/PriceAnalytics.js:25-26 | 0 with no orders; otherwise at most every price and equal to one of them |
| PriceAnalytics.MaxPrice | src/components/analytics/PriceAnalytics.js:25-27 | 0 with no orders; otherwise at least every price and equal to one of them |
| PriceAnalytics.AllKeyed | src/components/analytics/PriceAnalytics.js:29-31 | every order has a price key, so the distribution skips none |
| PriceAnalytics.PricePointTotals | src/components/analytics/PriceAnalytics.js:19-43 | the points' counts sum to `totalUnitsSold` and their revenues to `totalRevenue` (`TotalUnits` and `TotalRevenue`, PriceAnalytics.js:19-20) |
| PriceAnalytics.PricePointsFaithful | src/components/analytics/PriceAnalytics.js:29-43 | `PriceDistribution` (PriceAnalytics.js:29-41) sorted into `PricePoints` (PriceAnalytics.js:43): each point sums exactly the orders at its price, prices are strictly ascending, every order's price has its point, and every point's price is some order's price |
| PriceAnalytics.MaxCount | src/components/analytics/PriceAnalytics.js:157 | at least every point's count and equal to one of them |
| PriceAnalytics.BarHeight | src/components/analytics/PriceAnalytics.js:158 | for any non-zero maximum, of either sign, exactly the larger of 5 and count / max × 100; never below 5; not a finite number for a non-negative count over a zero maximum, and 5 for a negative one |
| PriceAnalytics.HeightInRange | src/components/analytics/PriceAnalytics.js:157-158 | a positive count at most a positive maximum gives a height in [5, 100] |
| PriceAnalytics.BarHeightsInRange | src/components/analytics/PriceAnalytics.js:155-158 | with every quantity positive, every bar height is in [5, 100] |
| AuthSlice.Logout | src/store/slices/authSlice.js:42-48 | shop none, not authenticated, status idle, error none |
| AuthSlice.LogoutIsInitial | src/store/slices/authSlice.js:31-48 | logging out from any state gives the initial state |
| AuthSlice.ClearError | src/store/slices/authSlice.js:49-51 | only the error changes, to none |
| AuthSlice.SetShop | src/store/slices/authSlice.js:52-55 | shop set and authenticated; status and error untouched |
| AuthSlice.Pending | src/store/slices/authSlice.js:59-62 | status loading and error cleared; shop and authentication kept |
| AuthSlice.Fulfilled | src/store/slices/authSlice.js:63-68 | status succeeded, the shop stored, authenticated, error none |
| AuthSlice.Rejected | src/store/slices/authSlice.js:69-73 | status failed, the payload as error, not authenticated, and the shop is not cleared |
| AuthSlice.ReducePreservesConsistent | src/store/slices/authSlice.js:38-75 | `Reduce`, the slice reducer dispatching each action (authSlice.js:38-75), keeps "authenticated only with a shop, an error only with failed" |
| AuthSlice.RunConsistent | src/store/slices/authSlice.js:31-75 | every state reachable from the initial one is consistent |
| Middleware.DigitRun | src/middleware.js:21 | `\d+` is greedy: the longest run of digits at the position |
| Middleware.FirstMatchFrom | src/middleware.js:21 | the leftmost match of `/api/shop/` followed by a digit, and its digit run |
| Middleware.ShopIdSegment | src/middleware.js:21 | none only when no position matches; otherwise a non-empty run of digits |
| Middleware.Decide | src/middleware.js:4-48 | paths outside `/api/shop` pass; a missing or empty cookie gives 401; every refusal is 401 or 403 |
| Middleware.PassExactly | src/middleware.js:5-47 | a request passes exactly when it is unguarded, or its cookie parses and either the path names no shop or the cookie's id is that shop |
| Middleware.ForbiddenExactly | src/middleware.js:21-33 | 403 exactly when a parsed cookie's id differs from the shop id in a guarded path |
| Middleware.MalformedCookieIs401 | src/middleware.js:19-44 | a cookie that is not JSON gives 401 "Invalid authentication data" |
| Middleware.DataRouteSegment | src/middleware.js:21-23 | `/api/shop/7/data` names shop `7` |
| AuthApi.TrimStart | src/pages/api/auth.js:13 | drops exactly the leading white space: a suffix, all removed characters white space, the first kept one not |
| AuthApi.TrimEnd | src/pages/api/auth.js:13 | drops exactly the trailing white space |
| AuthApi.BlankExactly | src/pages/api/auth.js:13 | `Trim`, `shopName.trim()` (auth.js:13), leaves nothing exactly when every character is white space |
| AuthApi.Handle | src/pages/api/auth.js:4-60 | 405 for any method but POST; 400 for a missing or blank name; 200 exactly for a POST with a name, a connection and a row, with the row's id and name; no other statuses than 200, 400, 404, 405, 500 |
| AuthApi.ValidationIgnoresDatabase | src/pages/api/auth.js:7-15 | 405 and 400 are decided whatever the database does |
| AuthApi.DatabaseFailureIs500 | src/pages/api/auth.js:21-38 | a failed connection or query gives 500 |
| AuthApi.NoRowIs404 | src/pages/api/auth.js:40-44 | no row for the name gives 404 "Shop not found" |
| AuthApi.FindByName | src/pages/api/auth.js:30-32 | the row found has exactly the name; none is found only when no row has it |
| AuthApi.UntrimmedNameMisses | src/pages/api/auth.js:13-44 | the name is looked up untrimmed: `"Fashion Store "` passes the blank check yet gives 404 where `"Fashion Store"` gives 200 |

## Left out

- The network requests inside `fetchShopData` and `authenticateShop` are I/O. Only their reducer effects are modelled, as the pending, fulfilled and rejected actions. Races between overlapping requests are concurrency and are not modelled.
- The localStorage writes of `logout` and `authenticateShop` (src/utils/auth.js) are side effects outside the state.
- The sqlite connection, query and close in the sign-in endpoint are an abstract outcome; the database itself is not modelled. A `shopName` that is not a string would make `trim` throw; the body is modelled as an optional string.
- AuthApi.Handle assumes the request body is an object. With a `null` body, `const { shopName } = req.body` (src/pages/api/auth.js:11) throws before any response is written. The handler has no `catch`, so the framework's error response (a 500) is left out.
- `setShop` with a null payload is not modelled; the payload is always a shop.
- JavaScript `Date`:
  - Parsing is a parameter.
  - Time zones are not modelled: an order date and the clock are read in the same zone.
  - Month-row timestamps are day numbers rather than milliseconds. That is the same order, as days × 86 400 000.
- IEEE floating point is not modelled: prices are integer cents and quotients are exact reals.
- PriceAnalytics.BarHeight: NaN and Infinity are both `None`, and `Math.max(5, -Infinity)` is 5.
- JSX, recharts, `toFixed`/`toLocaleString` formatting and `console.log` are presentation.
- The dropdown handlers' `parseInt`/`find` lookups (SalesAnalytics.js:111-130, PriceAnalytics.js:45-55) are event glue around the modelled reducers.
- SalesAnalytics.EntryTimestamp has a fallback of 0 for an entry whose first order has no date that parses. `SalesAnalytics.EntriesDated` proves the fallback is never taken: every month entry was created by an order whose date parses.
