# Finance tracker: a verified model of its data transforms

Clarity Finance Tracker is a React front end with an Express back end. The back end
pulls bank transactions through Plaid and stores them in Supabase. The front end
shows totals, per-category spending and monthly trends. It also has a demo mode
that serves a bundled list of sample transactions.

This project models the parts of the application that compute something. The
rest is user interface and network glue. Eight modules cover the following:

- `Seqs`: the array idioms the code is built from, with their properties.
  These are `filter`, de-duplication through `new Set`, `reverse`, the default
  string `sort()`, `startsWith` and `includes`.
- `Ledger`: the `Transaction` record and the magnitude and signed-amount sums
  shared by several components.
- `Dashboard`: the Dashboard's derived data. It covers the totals, the five
  most recent transactions, the month selector and the month filter. It also
  covers the per-category totals with the pie-chart slices, and the per-month
  series with the trend points. `categoryTotals` and `monthlyData` update an
  accumulator in place. They are methods whose loops are proved equal to fold
  functions. Properties are proved about those fold functions.
- `Transactions`: the transaction page's three combined filters and its
  category drop-down.
- `Server`: four parts of the back end.
  - The rate-limit message builder.
  - The bearer-token extraction from the `Authorization` header.
  - The `authenticateUser` middleware. The identity provider is a
    function parameter.
  - The `save-transactions` route: validation, the Plaid-record-to-row
    conversion, and the response. The database insert's outcome is a
    parameter, and the batch handed to it is an out-parameter.
- `DemoData`: the demo service as a class over an immutable transaction list.
  `getCategorySpending` is a loop proved to build the Dashboard's own
  per-category totals.
- `ProtectedRoute` and `Login`: the route guard, and the login form's e-mail
  handler as a class over the component's state fields. The handler includes
  the password-confirmation guard and the error-message rewriting.

Amounts are exact reals, so sums and percentages are exact. A month is named by
its `YYYY-MM` key, which is the first seven characters of the ISO date. Dates and
month keys are compared as strings, character by character.

Three behaviours of the code that are easy to miss:

- The totals sum the magnitudes `Math.abs(amount)`, not the raw amounts.
- In `save-transactions`, a positive Plaid amount becomes a credit. A zero or
  negative amount becomes a debit.
- In the trend series, every transaction that is not a credit counts as an
  expense.

## Model

| member | source | states |
|---|---|---|
| Ledger.Signed | src/services/demoDataService.ts:18 | a credit's amount becomes its magnitude and a debit's the negated magnitude; the magnitude is kept |
| Ledger.CreditDebitPartition | src/components/Dashboard.tsx:56-64 | SumMagnitudes and SignedTotal: credit and debit magnitude sums add up to the sum over all transactions, and their difference is the signed sum |
| Dashboard.TotalIncome | src/components/Dashboard.tsx:56-58 | the income total (magnitudes of the credits) is never negative |
| Dashboard.TotalExpenses | src/components/Dashboard.tsx:60-62 | the expense total (magnitudes of the debits) is never negative |
| Dashboard.TotalsPartition | src/components/Dashboard.tsx:56-64 | TotalIncome, TotalExpenses and NetWorth: income plus expenses is the total magnitude; the net worth is the signed sum of the amounts |
| Dashboard.SummaryExample | src/components/Dashboard.tsx:56-64 | a 5000 salary and debits of 150 and 25 give income 5000, expenses 175, net 4825 |
| Dashboard.RecentTransactions | src/components/Dashboard.tsx:65 | the recent list is a prefix of the transactions of length min(5, n) |
| Ledger.MonthKey | src/components/Dashboard.tsx:71 | the month key of a full ISO date is its seven-character YYYY-MM prefix |
| Dashboard.AvailableMonthsSpec | src/components/Dashboard.tsx:68-73 | AvailableMonths: the month selector lists every month key that occurs, each exactly once, newest first, and nothing else |
| Dashboard.MonthFilterSpec | src/components/Dashboard.tsx:76-82 | MonthFilter: 'all' keeps the whole list; another selection keeps, in order and with multiplicity, exactly the transactions of that month |
| Dashboard.CategoryTotals | src/components/Dashboard.tsx:85-90 | the in-place accumulation over the debits builds the category-totals fold, and its key order is the categories' first-appearance order |
| Dashboard.CategoryKeys | src/components/Dashboard.tsx:85-90 | the totals have one key per listed category and the key list has no repeats |
| Dashboard.DebitCategoriesMembers | src/components/Dashboard.tsx:85-90 | a category has a total exactly when some debit carries it |
| Dashboard.CategoryTotalsValues | src/components/Dashboard.tsx:85-90 | each total is the sum of its category's debit magnitudes; a category without a key spent nothing |
| Dashboard.CategoryTotalsSum | src/components/Dashboard.tsx:85-95 | the category totals add up to the filtered expense total |
| Dashboard.CategoryTotalsOfDebits | src/components/Dashboard.tsx:85-87 | dropping the credits first changes neither the totals nor the key order |
| Dashboard.SortSlicesCorrect | src/components/Dashboard.tsx:107 | the slice sort returns a permutation ordered by value, largest first |
| Dashboard.PieChartPermutation | src/components/Dashboard.tsx:101-107 | the pie data is a reordering of one slice per category total, sorted by value descending |
| Dashboard.PieChartSpec | src/components/Dashboard.tsx:101-107 | PieChartData: one slice per debit category; each slice carries its category's total and its percentage of the filtered expenses (0 when nothing was spent); sorted descending |
| Dashboard.PiePercentagesSum | src/components/Dashboard.tsx:93-107 | with non-zero expenses the percentages sum to exactly 100 |
| Dashboard.MonthlyData | src/components/Dashboard.tsx:110-125 | the in-place bucket updates build the per-month fold |
| Dashboard.MonthlyDataSpec | src/components/Dashboard.tsx:110-125 | there is a bucket exactly for each month that occurs, holding that month's credit magnitudes as income and all other magnitudes as expenses |
| Dashboard.MonthlyTrendShape | src/components/Dashboard.tsx:127-132 | MonthlyTrendData: point i is the i-th month in ascending order with its income, expenses, net = income - expenses and the negated expenses |
| Dashboard.MonthlyTrendOrder | src/components/Dashboard.tsx:127-128 | the trend points are strictly ascending by month |
| Dashboard.MonthlyTrendMonths | src/components/Dashboard.tsx:110-128 | there is a point for a month exactly when a transaction falls in it |
| Dashboard.MonthlyTrendValues | src/components/Dashboard.tsx:127-132 | every point's income and expenses are its month's totals and its net is their difference |
| Transactions.ApplyFiltersSpec | src/components/Transactions.tsx:33-58 | ApplyFilters: the shown list is an order-preserving subsequence that keeps, with multiplicity, exactly the transactions passing every active control; with all controls at their defaults it is the whole list, so it is never longer |
| Transactions.SearchExample | src/components/Transactions.tsx:37-41 | searching "grocery" over the four sample transactions shows only the grocery purchase |
| Transactions.UniqueCategoriesSpec | src/components/Transactions.tsx:62 | UniqueCategories: the category list is strictly ascending (no duplicates) and holds exactly the categories present |
| Server.Decimal | backend/server.js:54 | a number renders as a non-empty digit string without a leading zero |
| Server.DecimalRoundTrip | backend/server.js:54 | reading the rendered digits back gives the number |
| Server.CeilDiv | backend/server.js:51 | the rounded-up quotient is the least multiple count covering the dividend |
| Server.RateLimitMessageSpec | backend/server.js:50-57 | RateLimitMessage: retryAfter is the window in seconds rounded up and the minute count is the window in minutes rounded up; the message ends with the window text and " limit.", and "minute" is plural exactly when the minute count exceeds 1 |
| Server.WindowTextSpec | backend/server.js:54 | the window text opens with the minute count, which reads back as that number, and ends in "s" exactly when the count exceeds 1 |
| Server.GlobalLimiterWindow | backend/server.js:60-63 | the general limiter's window reads "15 minutes" and its retryAfter is 900 |
| Server.DatabaseLimiterWindow | backend/server.js:124-129 | the database limiter's window reads "1 minute" and its retryAfter is 60 |
| Server.BearerTokenSpec | backend/server.js:190-196 | BearerToken: a token is extracted exactly from a header "Bearer " + token, and it is that token |
| Server.AuthenticateUser | backend/server.js:177-210 | test mode admits the fixed test identity; otherwise a missing or non-Bearer header, a failed lookup and a thrown lookup each give 401 with their own message, and only a found user is admitted |
| Server.ToRow | backend/server.js:356-365 | the stored amount is non-negative, the type is credit iff the Plaid amount is positive, sign and magnitude give back the Plaid amount, the category array is flattened with "Other"/"" defaults, and the other fields are copied |
| Server.TransformTransactions | backend/server.js:356-365 | the conversion keeps length and order and stamps every row with the request's user |
| Server.SaveTransactions | backend/server.js:335-402 | a missing batch or user gives 400 and no insert; more than 1000 records gives 400 "Too many transactions" and no insert; otherwise the converted batch is inserted, and the answer is 500 with the error's details or 200 with count = number of records |
| DemoData.WithSign | src/services/demoDataService.ts:15-19 | only the amount changes, and it becomes the signed amount |
| DemoData.DemoDataService.constructor | src/services/demoDataService.ts:12 | the service holds the bundled transactions |
| DemoData.DemoDataService.GetDemoTransactions | src/services/demoDataService.ts:14-20 | same length and order, every field but the amount unchanged, magnitude kept, credits non-negative and debits non-positive |
| DemoData.DemoDataService.GetDemoAccounts | src/services/demoDataService.ts:22-35 | exactly one account, checking_001, whose balance is credit magnitudes minus debit magnitudes |
| DemoData.DemoDataService.GetDemoNetWorth | src/services/demoDataService.ts:37-39 | the net worth is the one account's balance |
| DemoData.DemoBalance | src/services/demoDataService.ts:22-39 | SignedTotal over the stored list: the balance is the sum of the served signed amounts and the Dashboard's net worth of the same data |
| DemoData.DemoDataService.GetTransactionsByDateRange | src/services/demoDataService.ts:41-49 | the date-range result is never longer than the served list; DateRangeSpec gives its exact contents |
| DemoData.DateRangeSpec | src/services/demoDataService.ts:41-49 | the range keeps, in order and with multiplicity, exactly the served transactions dated start..end inclusive, and nothing when end < start |
| DemoData.DemoDataService.GetCategorySpending | src/services/demoDataService.ts:51-61 | filling the dictionary over the served debits gives the Dashboard's category totals of the stored transactions |
| DemoData.DemoCategoryTotals | src/services/demoDataService.ts:54-58 | walking the debits of the signed list gives the same totals as the fold over the original list |
| DemoData.SpendingFacts | src/services/demoDataService.ts:51-61 | one key per debit category, each the non-negative sum of its debits; credits contribute nothing; the values sum to the total debit magnitude |
| ProtectedRoute.Gate | src/components/ProtectedRoute.tsx:11-24 | loading shows the loading screen whatever else holds; then no user and no demo mode redirects to "/" with replace; otherwise the children render |
| ProtectedRoute.GateAccess | src/components/ProtectedRoute.tsx:11-24 | the children render iff loading is over and there is a user or demo mode; a redirect happens iff loading is over with neither |
| Login.FirstMatchSpec | src/components/Login.tsx:112-122 | the table search returns the first matching rule's replacement, or the message unchanged when no rule matches |
| Login.FriendlyErrorTable | src/components/Login.tsx:112-122 | FriendlyError: the if/else chain equals the ordered rule table searched first-match-wins |
| Login.UnmatchedShownVerbatim | src/components/Login.tsx:120-121 | "Invalid credentials" is shown unchanged |
| Login.InvalidLoginRewritten | src/components/Login.tsx:118-119 | "Invalid login credentials" becomes "Incorrect email or password. Please try again." |
| Login.OtherValueShown | src/components/Login.tsx:109 | a thrown non-Error is shown as "An error occurred" |
| Login.LoginForm.constructor | src/components/Login.tsx:11-16 | the form starts not loading, without an error, in sign-in mode, with empty fields |
| Login.LoginForm.HandleEmailAuth | src/components/Login.tsx:62-127 | HandleEmailAuth, with ReplyMessage choosing the message: in sign-up mode with differing passwords: "Passwords do not match", no provider call, loading untouched. Otherwise: the provider is called, loading ends false, and the message is the rewritten error, the account-created notice for an unconfirmed new sign-up, or none. The mismatch guard does not apply when signing in |

## Left out

- Floating point: amounts, sums and percentages are exact reals, so "percentages sum to 100" holds exactly here. JavaScript's rounding and `toFixed(1)` are not modelled.
- Ledger.MonthKey and dates: the Dashboard derives the month key through `new Date(...)` with local-time `getFullYear`/`getMonth`. Here it is the first seven characters of the ISO string, which ignores the time-zone shift. `getTransactionsByDateRange` compares `Date` objects. Here it compares the ISO strings character by character, which agrees with `Date` only for well-formed `YYYY-MM-DD` dates. Invalid dates (NaN) are not modelled.
- Transactions.ToLower: only ASCII letters are lower-cased. Unicode case mapping is not modelled.
- String ordering: `sort()` and `localeCompare` are both modelled as character-by-character comparison. Locale collation is not modelled.
- Object key order: `Object.entries` lists integer-like keys first. The model uses insertion order for every key. Keys inherited from `Object.prototype` (a category named `constructor`, say) are not modelled; dictionaries are plain maps.
- Dashboard.SortSlicesCorrect: proves order and permutation, not which of two equal-valued slices comes first.
- Dashboard.MonthlyTrendShape: the trend point keeps the `YYYY-MM` key. The display label that `toLocaleDateString` makes from it is rendering, and is not modelled.
- The "Spending by Category" card at src/components/Dashboard.tsx:270 divides month-filtered totals by the all-time expense total. Its percentages need not sum to 100 when a month is selected. It is rendering code and is not modelled; the pie data (which uses the filtered total) is.
- Server.RateLimitMessage: `limit` and `windowMs` are naturals. Fractional or negative configurations are not modelled.
- Server.Decimal: every natural is rendered as plain decimal digits. JavaScript's template interpolation switches to exponent form from 10^21 ("1e+21") and loses precision above 2^53; the limiter settings are far below both.
- Server.SaveTransactions: the `log` and `logError` calls (backend/server.js:339-348, 367-379, 388, 392, 396) are dropped; they only write to the console.
- Login.LoginForm.HandleEmailAuth: the `logger.log` and `logger.error` calls (src/components/Login.tsx:83-86, 100-103) are dropped; they only write to the console.
- Server.AuthenticateUser: the Supabase `getUser` call is the `getUser` parameter. Assigning `req.user` and calling `next()` become the `Proceed` outcome. Logging is dropped.
- Server.SaveTransactions: covers the handler after authentication and rate limiting. `transactions` is a list or missing; a non-array value is not modelled. The Supabase client choice (service-role key or not) and the insert call are abstracted into the `insertError` parameter.
- Express, Helmet, CORS, the rate-limit and slow-down middleware wiring, the Plaid SDK routes (link token, token exchange, sync, accounts), static serving and `app.listen`: library configuration and network I/O.
- Login's Google and GitHub OAuth handlers: a provider redirect with no local logic beyond the error fallback.
- Login.LoginForm.HandleEmailAuth: the provider call is the `reply` parameter. The intermediate `loading = true` state during the await is not observable in the model; only the final state is stated.
- ProtectedRoute.Gate: the user object is reduced to whether one is present.
- The Supabase client wrappers, Plaid link and settings components, the auth context and all rendering (currency formatting, charts, styles): thin wrappers, browser state or presentation.
