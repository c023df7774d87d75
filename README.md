# INVENEASE dashboard logic in Dafny

A model of the deterministic logic under the INVENEASE inventory dashboard, a React
front end, with proofs of what that logic promises. The network, the clock, the locale
and the browser are replaced by inputs: fetched lists and call outcomes are values, a
month is a number from `getMonth` (or none, for a date that does not parse), ages are millisecond differences, and toasts and
navigation targets are returned values.

- `Inventory` holds the mock-data helpers. These are the lookups by id, the low-stock
  filter and the inventory valuation. Also here are the top-selling ranking (a tally
  loop over the sales, then a sort) and the three report generators.
- `Analytics` holds the monthly revenue buckets (a loop over a JavaScript-style array
  that can grow past its six slots) and the page's counters.
- `Dashboard` and `DashboardData` hold the two dashboard statistics derivations and what
  a failed fetch leaves behind.
- `SearchStore` holds the global search store. `SearchBox` holds the header search box
  with its keyboard selection.
- `Reports` builds the CSV text line by line, the download file name and the download
  outcome. `RelativeTime` is the shared "time ago" rule.
- `Notifications` holds the notification menu's read state.
- `Signup` holds the sign-up checks, the email pattern and its language, and the
  normalised request body. `Settings` holds the password-change form.
- `UseApi` holds the request hook's data, loading and error state.
- `Storage` is `localStorage` as a mutable map. `AuthStore` is the plain authentication
  store with its start-up load from storage. `PersistedAuth` is the persisted
  authentication store.
- Shared helpers:
  - `Seqs`: `filter`, `find`, a summing `reduce`.
  - `Text`: `toLowerCase`, `includes`, `trim`, `join`, numerals and `toFixed(2)` on
    hundredths.
  - `Json`: `JSON.stringify` of report values and of a user, and `JSON.parse` of the
    records it writes.
  - `Wrappers`: `Option` and `Result`; `Toasts`: success and error toasts.

Money is held as integers in hundredths, so `toFixed(2)` is exact.

## Model

| member | source | states |
|---|---|---|
| Inventory.GetCategoryById | src/services/mockData.ts:173-174 | nothing exactly when no category has the id; otherwise the first category with that id |
| Inventory.GetProductById | src/services/mockData.ts:175 | nothing exactly when no product has the id; otherwise the first product with that id |
| Inventory.LowStockProducts | src/services/mockData.ts:178-179 | exactly the products with quantity at or below their threshold (inclusive), each as often as in the input, as a subsequence in input order |
| Inventory.TotalInventoryValue | src/services/mockData.ts:180-181 | 0 for no products |
| Inventory.InventoryValueAdditive | src/services/mockData.ts:180-181 | the valuation of two concatenated lists is the sum of their valuations |
| Inventory.InventoryValueNonNegative | src/services/mockData.ts:180-181 | with no negative price or quantity the valuation is at least 0 |
| Inventory.Sales | src/services/mockData.ts:183-184 | the `filter` of the sale transactions; see Seqs.Filter |
| Inventory.SoldQuantity | src/services/mockData.ts:183-188 | the quantity the tally gives a product id; see UnsoldQuantity, SalesStep and TallySales |
| Inventory.UnsoldQuantity | src/services/mockData.ts:185-188 | a product no sale refers to has sold quantity 0 |
| Inventory.SalesStep | src/services/mockData.ts:185-188 | one more sale adds its id to the sold ids, its quantity to that id's count and to the total |
| Inventory.TallyBump | src/services/mockData.ts:186 | adding a sale's quantity to an id already in the accumulator keeps the tally invariant: keys distinct, each count the id's sold quantity, counts adding up to the total |
| Inventory.TallyNew | src/services/mockData.ts:186 | a first sale of an id appends its key with the sale's quantity and keeps the tally invariant |
| Inventory.TallySales | src/services/mockData.ts:183-188 | the accumulator holds each sold id once, with its summed quantity, and the counts add up to the total quantity sold |
| Inventory.Entries | src/services/mockData.ts:190-194 | one entry per key in key order, holding the product found by the key, the key and the count |
| Inventory.EntriesTotal | src/services/mockData.ts:190-194 | the entries' quantities add up to the accumulator's total |
| Inventory.Insert | src/services/mockData.ts:195 | inserting adds exactly that one entry (as a multiset) |
| Inventory.InsertSorted | src/services/mockData.ts:195 | inserting into a list sorted by non-increasing quantity keeps it sorted |
| Inventory.SortByQuantity | src/services/mockData.ts:195 | the result is sorted by non-increasing quantity and is a permutation of the input |
| Inventory.SortKeepsDistinct | src/services/mockData.ts:195 | sorting keeps the product ids distinct and keeps the set of ids |
| Inventory.SortKeepsTotal | src/services/mockData.ts:195 | sorting keeps the total quantity |
| Inventory.RankingFromTally | src/services/mockData.ts:190-195 | the sorted entries of a finished tally are a ranking: sorted, ids distinct, ids exactly the sold ones, each quantity that id's sold quantity, quantities adding up to the total sold |
| Inventory.TopSellingProducts | src/services/mockData.ts:182-196 | the result is the ranking of the "sale" transactions only |
| Inventory.CategoryName | src/services/mockData.ts:203 | `undefined` exactly when no category has the id; otherwise the name of the first category with it |
| Inventory.InventoryRow | src/services/mockData.ts:200-208 | the row's keys in literal order; SKU, category name, stock, price and value as two-decimal texts |
| Inventory.InventoryReport | src/services/mockData.ts:199-211 | one row per product, in product order |
| Inventory.SaleRow | src/services/mockData.ts:216-225 | the row's keys in literal order; product name, quantity and the two-decimal total |
| Inventory.SalesReport | src/services/mockData.ts:213-229 | a report exactly when every sale names a known product (otherwise the `!` lookup throws); then one row per sale |
| Inventory.SalesReportRow | src/services/mockData.ts:213-229 | row i is about sale i: its product's name, its quantity and its total |
| Inventory.LowStockRow | src/services/mockData.ts:232-239 | the row's keys in literal order; category name, current stock and reorder quantity |
| Inventory.LowStockReport | src/services/mockData.ts:231-242 | one row per low-stock product, in product order |
| Inventory.LowStockReorder | src/services/mockData.ts:238 | each row's product is low on stock; its reorder quantity is at least its threshold and brings it up to twice the threshold |
| Analytics.Seed | src/pages/Analytics/index.tsx:48 | six slots, all 0 |
| Analytics.Write | src/pages/Analytics/index.tsx:45-46 | the written slot holds the old value (or 0) plus the amount; an index past the end grows the array with holes in between; other slots are unchanged |
| Analytics.Buckets | src/pages/Analytics/index.tsx:44-48 | the series the `reduce` builds, an unparsable date (`NaN` month) leaving it as it was; see BucketsContent, BucketsTotal and RevenueSeries |
| Analytics.WidthBound | src/pages/Analytics/index.tsx:42-48 | the series has at least six slots and every sale's month, where the date parses, falls inside it |
| Analytics.NoSaleNoRevenue | src/pages/Analytics/index.tsx:44-47 | a month with no sale has revenue 0 |
| Analytics.BucketsContent | src/pages/Analytics/index.tsx:42-48 | slot m holds the revenue of month m for m below 6 or a month with a sale, and is a hole otherwise |
| Analytics.WriteSum | src/pages/Analytics/index.tsx:46 | one write adds its amount to the sum of the slots |
| Analytics.BucketsTotal | src/pages/Analytics/index.tsx:42-48 | the slots add up to the revenue of the sales whose date parses |
| Analytics.RevenueSeries | src/pages/Analytics/index.tsx:42-48 | the loop's result is the bucket series of the sale transactions |
| Analytics.TotalOrders | src/pages/Analytics/index.tsx:91 | at most the number of transactions; 0 exactly when none is a sale |
| Analytics.LowStockCount | src/pages/Analytics/index.tsx:96 | at most the number of products; 0 exactly when none is low on stock |
| Analytics.TotalRevenue | src/pages/Analytics/index.tsx:92-94 | `price * quantity` summed over the sales; see SeriesMatchesRevenue, UndatedSaleOffChart and NonSalesIgnored |
| Analytics.SeriesMatchesRevenue | src/pages/Analytics/index.tsx:42-94 | the series plus the revenue of the sales with an unparsable date is `totalRevenue` |
| Analytics.DatedSeriesMatchesRevenue | src/pages/Analytics/index.tsx:42-94 | when every sale's date parses, the series sums to `totalRevenue` |
| Analytics.UndatedSaleOffChart | src/pages/Analytics/index.tsx:42-94 | a sale with an unparsable date leaves the series unchanged but adds its amount to `totalRevenue` and one to `totalOrders` |
| Analytics.NonSalesIgnored | src/pages/Analytics/index.tsx:43 | a transaction that is not a sale changes neither the series nor `totalOrders` nor `totalRevenue` |
| Dashboard.TotalSales | src/pages/Dashboard/index.tsx:46-48 | the summing `reduce` over the sales; see TotalSalesOnlySales |
| Dashboard.TotalSalesOnlySales | src/pages/Dashboard/index.tsx:46-48 | the total is the sum with 0 for every non-sale; 0 for a list without sales |
| Dashboard.ComputeStats | src/pages/Dashboard/index.tsx:42-56 | the product and category counts are the list lengths; the low-stock count is the low-stock filter's length, at most the product count; total sales as above |
| Dashboard.AfterFetch | src/pages/Dashboard/index.tsx:50-61 | loading ends; success sets the computed stats; failure keeps the stats and raises "Failed to load dashboard data" |
| Dashboard.FailedFetchShowsZeros | src/pages/Dashboard/index.tsx:25-31 | a failed first fetch shows all zeros, not loading, with the error toast |
| DashboardData.StockValueAdditive | src/pages/Dashboard/hooks/useDashboardData.ts:37-41 | the stock value of two concatenated lists is the sum of their stock values |
| DashboardData.Metrics | src/pages/Dashboard/hooks/useDashboardData.ts:33-48 | the product count; a low-stock count equal to the number of products at or below their threshold, at most the product count, 0 exactly when no product is at or below its threshold; the first min(5, n) transactions in order; the stock value |
| DashboardData.NoThresholdNotLow | src/pages/Dashboard/hooks/useDashboardData.ts:34-36 | products without a threshold are never low |
| DashboardData.AfterFetch | src/pages/Dashboard/hooks/useDashboardData.ts:43-54 | loading ends; success sets the metrics; failure keeps the data and sets "Failed to fetch dashboard data" |
| DashboardData.FailedFetchKeepsZeros | src/pages/Dashboard/hooks/useDashboardData.ts:12-19 | a failed first fetch keeps the zero data |
| SearchStore.ProductResult | src/store/searchStore.ts:52-60 | id, kind, title and URL from the product; the description is the category name (or "Uncategorized"), " - ", the quantity and " in stock" |
| SearchStore.CategoryResult | src/store/searchStore.ts:65-71 | id, kind, title and URL from the category; the description, or "No description" |
| SearchStore.TransactionResult | src/store/searchStore.ts:78-84 | id, kind and URL from the transaction; the product name or "Unknown Product" as title; type and quantity as description |
| SearchStore.ProductResults | src/store/searchStore.ts:48-60 | at most one hit per product; titles in TitlesMatch, completeness in ResultsComplete |
| SearchStore.CategoryResults | src/store/searchStore.ts:61-71 | at most one hit per category; titles in TitlesMatch, completeness in ResultsComplete |
| SearchStore.TransactionResults | src/store/searchStore.ts:72-84 | at most one hit per transaction; see TransactionHitsMatch and NoProductNoHit |
| SearchStore.Results | src/store/searchStore.ts:44-85 | the three groups in order over the fetched lists; see ResultGroups, TitlesMatch and ResultsComplete |
| SearchStore.ResultGroups | src/store/searchStore.ts:47-85 | all product hits first, then all category hits, then all transaction hits |
| SearchStore.TitlesMatch | src/store/searchStore.ts:48-77 | every result's title holds the query, ignoring case |
| SearchStore.TransactionHitsMatch | src/store/searchStore.ts:72-84 | every transaction hit's title is its product's name, which holds the query |
| SearchStore.ResultsComplete | src/store/searchStore.ts:48-84 | every matching product, category and transaction appears in the results |
| SearchStore.NoProductNoHit | src/store/searchStore.ts:73-77 | a transaction without a product never adds a result |
| SearchStore.LoweredQuerySameResults | src/store/searchStore.ts:50 | a query and its lower-cased form give the same results |
| SearchStore.Store.constructor | src/store/searchStore.ts:24-26 | empty query, no results, not loading |
| SearchStore.Store.SetQuery | src/store/searchStore.ts:27 | only the query changes |
| SearchStore.Store.ClearResults | src/store/searchStore.ts:93 | only the results change, to none |
| SearchStore.Store.Search | src/store/searchStore.ts:28-92 | a request exactly for a non-empty query (white space counts); an empty one clears the results; success sets the results of the fetched lists, failure empties them; loading ends |
| SearchBox.ProductResult | src/components/Search/index.tsx:60-66 | id, title and kind from the product; "SKU: " + sku as description; "/products/" + id as URL |
| SearchBox.CategoryResult | src/components/Search/index.tsx:72-78 | id, title and kind from the category; the description or ""; "/categories/" + id as URL |
| SearchBox.ProductResults | src/components/Search/index.tsx:56-66 | at most one hit per product; see ProductHits |
| SearchBox.CategoryResults | src/components/Search/index.tsx:68-78 | at most one hit per category; see CategoryHits |
| SearchBox.Results | src/components/Search/index.tsx:80 | the product hits, then the category hits; see ResultsOrder and ResultsShape |
| SearchBox.ProductHits | src/components/Search/index.tsx:56-66 | every product result's title holds the query, and every matching product appears |
| SearchBox.CategoryHits | src/components/Search/index.tsx:68-78 | every category result's title holds the query, and every matching category appears |
| SearchBox.ResultsOrder | src/components/Search/index.tsx:80 | the product hits come before the category hits |
| SearchBox.ResultsShape | src/components/Search/index.tsx:56-80 | every title holds the query; no matching product or category is missed |
| SearchBox.Box.constructor | src/components/Search/index.tsx:16-20 | closed, empty query, no results, not loading, nothing highlighted |
| SearchBox.Box.Search | src/components/Search/index.tsx:39-89 | an empty query clears the results; success replaces them; failure keeps them; loading ends; the highlight is untouched |
| SearchBox.Box.Change | src/components/Search/index.tsx:124-127 | the query becomes the typed text and the box opens |
| SearchBox.Box.Focus | src/components/Search/index.tsx:128 | the box opens, and nothing else changes |
| SearchBox.Box.ClickOutside | src/components/Search/index.tsx:26-32 | the box closes, and nothing else changes |
| SearchBox.Box.KeyDown | src/components/Search/index.tsx:91-115 | ArrowDown moves down only below the last result; ArrowUp moves up only above 0; Enter on a highlighted result navigates to it and clears and closes; Escape closes; a highlight in range stays in range |
| RelativeTime.TimeAgo | src/pages/Reports/index.tsx:48-56 | `getTimeAgo` on the elapsed milliseconds; see TimeAgoBuckets and CatalogueOffsets |
| RelativeTime.TimeAgoBuckets | src/pages/Reports/index.tsx:48-56 | under a minute gives "just now"; then whole minutes under 60, whole hours under 24, else whole days, each with its suffix |
| RelativeTime.CatalogueOffsets | src/pages/Reports/index.tsx:28-44 | the catalogue's offsets read "1d ago", "2h ago" and "30m ago" |
| Reports.Cell | src/pages/Reports/index.tsx:66 | empty exactly for `undefined` or a missing key; never holds a line break |
| Reports.DataLine | src/pages/Reports/index.tsx:66 | one data line, with no line break inside it; see Fields and CsvLines |
| Reports.Fields | src/pages/Reports/index.tsx:66 | one field per header, in header order, each the encoding of the row's value under that header |
| Reports.DataLines | src/pages/Reports/index.tsx:64-67 | one data line per row, in row order |
| Reports.CsvText | src/pages/Reports/index.tsx:60-67 | no text exactly for no rows (where `data[0]` throws) |
| Reports.BuildCsv | src/pages/Reports/index.tsx:61-67 | the loop's text is the CSV of the rows |
| Reports.LinesSnoc | src/pages/Reports/index.tsx:65-66 | appending a line and its break adds exactly that line |
| Reports.CsvUpToLines | src/pages/Reports/index.tsx:63-67 | every intermediate text ends in a line break, and its lines are the header line and the data lines so far |
| Reports.CsvLines | src/pages/Reports/index.tsx:61-67 | the lines are the first row's keys joined by "," and then one data line per row: rows + 1 lines, the last ending in a break |
| Reports.Slug | src/pages/Reports/index.tsx:75 | no white space is left, and the text gets no longer |
| Reports.SlugOfPlain | src/pages/Reports/index.tsx:75 | text without white space is kept |
| Reports.SlugCollapsesRun | src/pages/Reports/index.tsx:75 | a run of white space between other characters becomes one "_" |
| Reports.DatePart | src/pages/Reports/index.tsx:76 | the prefix before the first "T" |
| Reports.FileName | src/pages/Reports/index.tsx:73-77 | the name ends in ".csv" |
| Reports.FileNameOfWords | src/pages/Reports/index.tsx:73-77 | for a word, a run of white space and the rest: the lowered word, "_", the slug of the lowered rest, "_", the date part and ".csv" |
| Reports.Generate | src/pages/Reports/index.tsx:21-46 | the generator each report kind names; see InventoryReport, SalesReport and LowStockReport |
| Reports.DownloadReport | src/pages/Reports/index.tsx:58-88 | a file exactly when the generator succeeds with rows; the file's name and CSV text; the success toast on a file, the failure toast otherwise |
| Notifications.CountUnread | src/components/Notifications/index.tsx:36 | at most the number of notifications |
| Notifications.NoneUnread | src/components/Notifications/index.tsx:36 | the count is 0 exactly when everything is read |
| Notifications.MarkRead | src/components/Notifications/index.tsx:38-42 | same length and order; an entry is read exactly when it was or carries the id; no other field changes |
| Notifications.MarkAllRead | src/components/Notifications/index.tsx:44-46 | same length; every entry is read; no other field changes |
| Notifications.MarkReadIdempotent | src/components/Notifications/index.tsx:38-42 | marking twice is marking once |
| Notifications.MarkReadUnknown | src/components/Notifications/index.tsx:38-42 | an id no entry carries changes nothing |
| Notifications.MarkReadCount | src/components/Notifications/index.tsx:36-42 | the count after is the number of unread entries with another id; it never rises, and falls when an unread entry had the id |
| Notifications.MarkAllReadClears | src/components/Notifications/index.tsx:44-46 | nothing is unread afterwards |
| Notifications.InitialUnread | src/components/Notifications/index.tsx:17-34 | the starting list has two unread notifications |
| Notifications.InitialAges | src/components/Notifications/index.tsx:48-56 | they are shown as "30m ago" and "1h ago" |
| Notifications.Menu.constructor | src/components/Notifications/index.tsx:17-34 | closed, with the starting list |
| Notifications.Menu.BadgeIffUnread | src/components/Notifications/index.tsx:67-86 | the badge (and the mark-all control) shows exactly when something is unread |
| Notifications.Menu.Toggle | src/components/Notifications/index.tsx:64 | the menu flips; the list is unchanged |
| Notifications.Menu.Close | src/components/Notifications/index.tsx:78 | the menu closes; the list is unchanged |
| Notifications.Menu.MarkAsRead | src/components/Notifications/index.tsx:110 | the list is marked for the id; the unread count never rises |
| Notifications.Menu.MarkAllAsRead | src/components/Notifications/index.tsx:86 | the list is all read; the count is 0 and the badge is gone |
| Signup.EmailMatchesLanguage | src/pages/Signup.tsx:30 | the check accepts exactly the texts local@a.b with three non-empty parts free of white space and "@" |
| Signup.EmailShape | src/pages/Signup.tsx:30 | an accepted email has no white space and exactly one "@", which is not first |
| Signup.PaddedEmailRejected | src/pages/Signup.tsx:30 | white space at either end fails the pattern |
| Signup.Failures | src/pages/Signup.tsx:19-46 | the checks that fail, in the form's order; see Validate and ValidateReportsFirst |
| Signup.Validate | src/pages/Signup.tsx:19-46 | no problem exactly when the trimmed name and email are non-empty, the untrimmed email matches, the password has at least 6 characters and equals its confirmation |
| Signup.ValidateReportsFirst | src/pages/Signup.tsx:19-46 | the reported problem is the first failed check, in the form's order |
| Signup.PaddedEmailIsInvalid | src/pages/Signup.tsx:25-33 | a padded email passes the emptiness check but is refused as invalid |
| Signup.Submit | src/pages/Signup.tsx:48-62 | a failed check gives its toast message and no request; otherwise the body holds the trimmed name, the trimmed lower-cased email and the password as typed |
| Signup.LowerEmailMatches | src/pages/Signup.tsx:60 | lower-casing an accepted email keeps it accepted |
| Signup.AcceptedEmailIsTrimmed | src/pages/Signup.tsx:30 | an accepted email has nothing to trim |
| Signup.PayloadNormalised | src/pages/Signup.tsx:58-62 | the body's name and email are their own trims, the email is its own lower case and still matches, and the password is unchanged |
| Settings.PasswordProblem | src/pages/Settings/index.tsx:17-25 | no problem exactly when the passwords agree and have at least 6 characters; a mismatch is reported as such whatever the length |
| Settings.PasswordForm.constructor | src/pages/Settings/index.tsx:8-11 | three empty fields, not loading |
| Settings.PasswordForm.Type | src/pages/Settings/index.tsx:8-10 | the three fields take the typed values |
| Settings.PasswordForm.ChangePassword | src/pages/Settings/index.tsx:14-40 | a request exactly when there is no problem, carrying the current and new password; a problem gives its toast; success clears the fields; failure keeps them with "Failed to update password"; loading ends after a request |
| UseApi.ErrorMessage | src/hooks/useApi.ts:45-49 | the response's non-empty message, else the error's non-empty message, else "An unexpected error occurred"; never empty |
| UseApi.SuccessMessage | src/hooks/useApi.ts:40 | the configured message, or "Operation successful" when it is empty |
| UseApi.Request.constructor | src/hooks/useApi.ts:21-23 | no data, not loading, no error |
| UseApi.Request.Reset | src/hooks/useApi.ts:25-29 | no data, not loading, no error |
| UseApi.Request.Begin | src/hooks/useApi.ts:34-35 | loading, no error, data kept |
| UseApi.Request.Settle | src/hooks/useApi.ts:36-60 | success stores and returns the response; failure keeps the data, records the message and returns nothing; loading ends; each toast only when its option is set |
| UseApi.Request.Execute | src/hooks/useApi.ts:31-63 | the same, for the whole call from its entry |
| Storage.LocalStorage.GetItem | src/store/authStore.ts:15-16 | the stored value exactly when the key is present |
| Storage.LocalStorage.SetItem | src/store/authStore.ts:36-37 | that key holds the value; every other key is unchanged |
| Storage.LocalStorage.RemoveItem | src/store/authStore.ts:47-48 | that key is gone; every other key is unchanged |
| AuthStore.EncodeUser | src/store/authStore.ts:36 | `JSON.stringify(user)`; see ParseEncodedUser |
| AuthStore.ParseUser | src/store/authStore.ts:18 | `JSON.parse` of the stored user: `null` gives no user, any other text that is not a stringified user a parse error; see ParseEncodedUser and LoadInitialState |
| AuthStore.ParseEncodedUser | src/store/authStore.ts:18-36 | parsing a stored user gives the same user back |
| AuthStore.LoadInitialState | src/store/authStore.ts:13-30 | signed in exactly when the stored token and user are non-empty and the user parses; a parse failure gives the signed-out state; otherwise a token exactly when the stored one is non-empty, and the parsed user exactly when a user is stored |
| AuthStore.AfterLogin | src/store/authStore.ts:36-37 | the storage after `login`; see ReloadAfterLogin and Store.Login |
| AuthStore.AfterLogout | src/store/authStore.ts:47-48 | the storage after `logout`; see ReloadAfterLogout, LogoutIdempotent and Store.Logout |
| AuthStore.ReloadAfterLogin | src/store/authStore.ts:13-44 | reloading after a login with a non-empty token restores the same user and token, signed in |
| AuthStore.ReloadAfterLogout | src/store/authStore.ts:13-55 | reloading after a logout starts signed out |
| AuthStore.LogoutIdempotent | src/store/authStore.ts:45-55 | logging out twice leaves storage as once |
| AuthStore.Store.constructor | src/store/authStore.ts:32-33 | the state loaded from storage, which is untouched |
| AuthStore.Store.Login | src/store/authStore.ts:34-44 | the user and token are held and signed in; storage gets "user" and "token"; the state and storage agree |
| AuthStore.Store.Logout | src/store/authStore.ts:45-55 | the signed-out state; storage loses exactly "user" and "token"; the state and storage agree |
| PersistedAuth.Store.constructor | src/store/auth.ts:17-19 | no user, no token, signed out |
| PersistedAuth.Store.Login | src/store/auth.ts:20-24 | the user and token are held and signed in; storage gets "token" and then "user" |
| PersistedAuth.Store.Logout | src/store/auth.ts:25-29 | no user, no token, signed out; storage loses exactly "token" and "user" |
| PersistedAuth.Store.UpdateUser | src/store/auth.ts:30-33 | only the user and the stored "user" change; token and sign-in state are kept, so an update while signed out stays signed out |
| Seqs.Filter | src/services/mockData.ts:179 | exactly the elements that pass, each as often as in the input, as a subsequence |
| Seqs.FilterEmpty | src/pages/Analytics/index.tsx:91 | nothing passes exactly when no element does |
| Seqs.Find | src/services/mockData.ts:174 | nothing exactly when no element passes; otherwise the first that does |
| Seqs.SumFilter | src/pages/Dashboard/index.tsx:46-48 | summing the filtered elements is summing with 0 for the rest |
| Text.ToLower | src/store/searchStore.ts:50 | same length, each character lowered on its own, no upper-case letter left |
| Text.ToLowerIdempotent | src/store/searchStore.ts:50 | lowering twice is lowering once |
| Text.Includes | src/store/searchStore.ts:50 | true exactly when the text occurs somewhere |
| Text.MatchesLoweredQuery | src/store/searchStore.ts:50 | lowering the query first changes no match |
| Text.MatchesEmptyName | src/store/searchStore.ts:74-76 | only the empty query occurs in an empty name |
| Text.Trim | src/pages/Signup.tsx:20 | the middle of the text between leading and trailing white space; empty exactly for all white space |
| Text.TrimIdempotent | src/pages/Signup.tsx:59 | trimming twice is trimming once |
| Text.TrimLowerCommute | src/pages/Signup.tsx:60 | trimming and lowering commute |
| Text.IndexOf | src/pages/Reports/index.tsx:76 | the first occurrence, or the length when there is none |
| Text.NatToStringValue | src/pages/Reports/index.tsx:52 | reading a numeral back gives the number |
| Text.IntToString | src/store/searchStore.ts:57 | a minus sign exactly for negatives, then the numeral |
| Text.FixedTwo | src/services/mockData.ts:206-207 | a point before exactly two digits and a minus sign exactly for negatives |
| Text.FixedTwoValue | src/services/mockData.ts:206-207 | the digits, read without the sign and the point, give the amount's magnitude in hundredths |
| Json.Lookup | src/pages/Reports/index.tsx:66 | nothing exactly when the key is absent |
| Json.LookupRecord | src/services/mockData.ts:200-208 | with distinct keys, the value written next to a key is found |
| Json.Stringify | src/pages/Reports/index.tsx:66 | no text exactly for `undefined` |
| Json.QuoteRoundTrip | src/store/authStore.ts:36 | parsing a stringified string gives it back and leaves what follows |
| Json.StringifyHasNoNewline | src/pages/Reports/index.tsx:66 | a stringified value holds no line break |
| Json.EncodeRecord | src/store/authStore.ts:36 | `JSON.stringify` of a flat object of strings; see RecordRoundTrip and RecordIsNonEmpty |
| Json.DecodeRecord | src/store/authStore.ts:18 | `JSON.parse` of such an object with the expected keys; see RecordRoundTrip |
| Json.RecordRoundTrip | src/store/authStore.ts:18-36 | parsing a stringified record gives back its values |
| Json.RecordIsNonEmpty | src/store/authStore.ts:18-20 | a stringified record is neither empty nor "null" |

## Left out

- Rendering, charts, styling, animation and the other pages are not part of this model.
- The network is replaced by outcome parameters. These are axios, the service
  wrappers and the `Promise.all` fetches, as are the password update, the sign-up call
  and what follows it. After the call, `handleSubmit` logs in, raises toasts, navigates
  and maps the 409 conflict; none of this is modelled. A failed call is `None` or
  `Failure`.
- The clock, the time zone and the locale are parameters. These are `Date.now`,
  `getMonth`, `toLocaleDateString` and `toISOString`.
- The debounce timing, the DOM listener behind a click outside, and the Blob, URL and
  link download mechanics are left out. Toasts and navigation are returned values.
- Floating point is not modelled: money is integers in hundredths.
  - `avgOrderValue` is left out; its division can be by zero.
  - `formatCurrency` and the `Intl` formatting are left out.
- Inventory.TopSellingProducts: the ties among equal quantities are not pinned down.
  `Object.entries` lists integer-like keys in numeric order; the model keeps first-sale
  order and then sorts stably. The contract states the ranking facts only.
- Inventory.SalesReport: the `!` on an unknown product throws later, at `.name`. The
  model reports this as the absence of a report.
- Reports.FileName: its own contract only fixes the ".csv" ending. The slug itself is
  stated by Reports.FileNameOfWords and the Slug lemmas.
- Text.ToLower: lowers A to Z only. Full Unicode case mapping is not modelled.
- Lengths: JavaScript counts UTF-16 code units and the model counts characters. They
  agree except for characters outside the Basic Multilingual Plane.
- AuthStore.ParseUser: `JSON.parse` is modelled for the texts `JSON.stringify` writes
  for a user, and for "null", which parses to no user. Any other text counts as a parse
  error, so a hand-edited but valid JSON text in storage is not modelled.
- PersistedAuth: zustand's `persist` middleware is not modelled. This covers its
  "auth-storage" key and the rehydration on start-up. The constructor is the in-memory
  initial state.
- `console.error` calls are not modelled.
- src/services/notificationService.ts and src/pages/Analytics.tsx are not part of this
  model: the first is a WebSocket client, the second a stream with floating-point
  statistics.
- SearchBox.Box.Search: as in the component, a new result list does not reset the
  highlighted index, so the index can point past the new results.
  `SelectionInRange` is therefore preserved by the key handler only.
- The intermediate loading states inside one call are not modelled except through
  `UseApi.Request.Begin`. These are the states a render can observe between `await`s.
- Overlapping asynchronous calls are not modelled. Each call settles before the next
  begins. So the model has no stale search response that lands after a newer one
  (`SearchStore.Store.Search`, `SearchBox.Box.Search`), and no two interleaved
  `execute` calls (`UseApi.Request.Execute`).
- Settings: the current password is sent as typed, and is not checked on the client.
