# Personal finance tracker: the API core, in Dafny

This project models the server of a small personal finance tracker, a FastAPI app over a
SQLite database in `main.py`. It covers four pieces of that server:

- **Summary engine** (`transactions_summary`). It selects the caller's transactions in an
  optional, inclusive date range. From them it computes:
  - total income, total expense and the net balance;
  - a per-category breakdown of the "Debit" rows, in the order the categories first appear;
  - per-month income and expense, in the order the months first appear;
  - the `top_count` largest transactions by amount.
- **Credential store.** Registration refuses a name that is already taken and otherwise stores
  the bcrypt hash of the password. `authenticate_user` returns the stored user only when the
  name is known and the password verifies against the stored hash.
- **Bearer tokens.**
  - `create_access_token` copies the claims and adds an `exp` that lies `expires_delta` (by
    default fifteen minutes) after the current time. A login sets `sub` to the user's name and
    asks for thirty minutes.
  - `get_current_user` refuses a token that does not decode (a bad signature or an expired
    `exp`), that has no `sub`, or that names no stored user.
- **Transaction repository.**
  - Creating a transaction appends one row owned by the authenticated caller.
  - Listing returns only the caller's rows, newest date first. It then applies `OFFSET skip`
    and `LIMIT limit`.

Modules:

- `Records` (records.dfy) holds the rows and request bodies as datatypes.
- `OrderedDict` (ordered_dict.dfy) models Python's insertion-ordered `dict`, which the summary
  loops fill in place.
- `Ranking` (ranking.dfy) models `ORDER BY … DESC`, `OFFSET` and `LIMIT`.
- `Summary` (summary.dfy) holds the summary engine. Its two accumulation loops are methods
  proved against the left folds `CategorySummary` and `MonthlySummary`.
- `Auth` (auth.dfy) holds the credential lookup, the password decision and the token issue and
  validation.
- `Store` (store.dfy) holds the `Database` class with its user and transaction tables, and the
  routes that read and write them.

Amounts are whole numbers (think cents). The clock, bcrypt and the JWT signature are
parameters:

- `now` is a number of seconds.
- A `PasswordContext` supplies `hash(password, salt)` and `verify(password, hash)`. The model
  relies only on `Sound`: a password verifies against its own hash.
- A `Token` is its claims plus a flag saying whether its signature checks out.

## Model

| member | source | states |
|---|---|---|
| `Summary.Query` | main.py:206-212 | The summary rows are the table rows owned by the caller that satisfy `start_date <= date` and `date <= end_date` for whichever bounds are given. Each such row appears exactly as often as in the table, and no other row appears. The result has no more rows than the table. |
| `Summary.CrossedRangeSelectsNothing` | main.py:206-212 | A start date after the end date selects no row; this is an empty answer, not an error. |
| `Summary.Total` | main.py:215-216 | `sum(t.amount for t in rows if …)` over the selected rows; it is zero when no row is selected. |
| `Summary.TotalAppend` | main.py:215-216 | The sum over two runs of rows is the sum of the two sums. |
| `Summary.TotalPermutation` | main.py:206-216 | The totals depend only on which rows the query returns, not on the order it returns them in. |
| `Summary.NonCreditsAreDebits` | main.py:215-216 | When every row is typed "Credit" or "Debit", the sum over non-"Credit" rows equals the sum over "Debit" rows. |
| `Summary.CategoryKeysFirstSeen` | main.py:221-224 | The category dictionary holds each category of a "Debit" row exactly once, and no other category, in the order the categories first appear among the debits. |
| `Summary.CategoryAmountsCorrect` | main.py:221-224 | Each category's entry is the sum of the amounts of the "Debit" rows in that category. |
| `Summary.CategorySumIsTotalExpense` | main.py:216-224 | The category entries add up to `total_expense`, because only "Debit" rows are accumulated. |
| `Summary.NoDebitsOutsideCategories` | main.py:222-224 | A category that appears on no "Debit" row has a debit sum of zero. |
| `Summary.BuildCategorySummary` | main.py:220-224 | The in-place loop over the rows leaves the dictionary equal to `CategorySummary` of all the rows. |
| `Summary.MonthKeysFirstSeen` | main.py:228-232 | The monthly dictionary holds each month of the rows exactly once, in the order the months first appear. |
| `Summary.MonthFlowsCorrect` | main.py:228-236 | Each month holds the sum of its "Credit" rows as income and the sum of all its other rows as expense. |
| `Summary.NoRowsOutsideMonths` | main.py:229-236 | A month in which no row falls has zero income and zero expense. |
| `Summary.MonthSumsAreTotals` | main.py:215-236 | Summed over the months, income equals `total_income`, and expense equals the sum of the non-"Credit" rows. |
| `Summary.NewMonthThenBook` | main.py:231-236 | Opening a new month at zero and then booking the row into it has the same effect as booking the row into the month's current value, or into zero. |
| `Summary.BuildMonthlySummary` | main.py:227-236 | The in-place loop over the rows leaves the dictionary equal to `MonthlySummary` of all the rows. |
| `Summary.Breakdown` | main.py:225 | The breakdown lists the categories in the dictionary's key order. |
| `Summary.Trends` | main.py:237 | The trend list lists the months in the dictionary's key order. |
| `Summary.TopRows` | main.py:239-243 | `query.order_by(amount.desc()).limit(top_count)` has length `min(top_count, rows)` (all rows for a negative count), is non-increasing in amount, and draws only on the summary rows. |
| `Summary.Views` | main.py:244-252 | The top list shows one entry per top row, in the same order. Each entry has that row's name, amount, type, category and date. |
| `Summary.TrendMonthsFirstSeen` | main.py:228-237 | The trend list names each month of the rows exactly once, in first-seen order, so every row lands in exactly one month entry. |
| `Summary.TrendFlowsCorrect` | main.py:231-237 | Each trend entry holds its month's "Credit" sum as income and its non-"Credit" sum as expense. |
| `Summary.TrendsSums` | main.py:237 | The trend list's income and expense columns add up to the dictionary's sums. |
| `Summary.CategoryBreakdownCorrect` | main.py:220-225 | `category_breakdown` has distinct categories in first-seen order, exactly those of the "Debit" rows. Each amount is that category's debit sum, and the amounts add up to `total_expense`. |
| `Summary.MonthlyTrendsCorrect` | main.py:227-237 | `monthly_trends` has distinct months in first-seen order, and every row's month is among them. Each entry holds that month's credit and non-credit sums. The incomes add up to `total_income`, and the expenses add up to the non-credit total. |
| `Summary.ViewsKeepOrder` | main.py:244-252 | Projecting rows sorted by amount to their displayed fields keeps them sorted by amount. |
| `Summary.TopTransactionsCorrect` | main.py:239-253 | The top list has length `min(top_count, rows)` (all rows for a negative count). It is non-increasing in amount and draws only on the summary rows, so every entry belongs to the caller and lies in the range. Every row left out has an amount no larger than any row kept. |
| `Summary.SummaryMeaning` | main.py:215-237 | `net_balance` is `total_income - total_expense`, and the totals are the sums of the "Credit" rows and of the "Debit" rows. The breakdown and the trends mean what `CategoryBreakdownCorrect` and `MonthlyTrendsCorrect` state. With only "Credit"/"Debit" rows, the monthly expenses add up to `total_expense`. |
| `Summary.CrossedRangeIsEmptySummary` | main.py:206-212 | A start date after the end date gives zero totals and empty lists, not an error. |
| `Summary.SummaryOf` | main.py:215-261 | The response's `net_balance` is `total_income - total_expense`, and its top list has `min(top_count, rows)` entries (all rows for a negative count). |
| `Summary.DefaultTopTransactions` | main.py:239-252 | Without `top_count` (the default of 5), the top list has five entries, or all rows when there are fewer, and its amounts are non-increasing. |
| `Summary.TransactionsSummary` | main.py:196-261 | The response, built with the two in-place dictionary loops, is `SummaryOf` the rows of the query, which the lemmas above describe. |
| `Ranking.Insert` | main.py:240 | Inserting into a descending sequence keeps it descending and adds exactly that element. |
| `Ranking.Limit` | main.py:194 | `LIMIT n` keeps the first `min(n, rows)` rows; a negative `n` keeps them all. |
| `Ranking.Offset` | main.py:194 | `OFFSET k` drops the first `k` rows (all of them when `k` is at least the count); a non-positive `k` drops none. |
| `Ranking.SortDesc` | main.py:240 | `ORDER BY … DESC` returns a permutation of its rows in non-increasing key order. |
| `Ranking.LimitOfSortKeepsLargest` | main.py:239-243 | `ORDER BY key DESC LIMIT n` has length `min(n, rows)` and is descending. It draws only on the rows, and every row left out has a key no larger than any row kept. |
| `Ranking.PageOfSort` | main.py:194 | `ORDER BY … DESC OFFSET skip LIMIT limit` is descending and draws only on its rows. It holds at most `limit` rows when a limit is set, and is the whole sort when nothing is skipped or cut. |
| `Ranking.PageIsWindow` | main.py:194 | `OFFSET skip LIMIT limit` is one contiguous window of the ordered rows. |
| `Ranking.PageBetweenCuts` | main.py:194 | A page of the descending sort has exactly `PageEnd - PageStart` rows. Every skipped row has a key no smaller than any row of the page, and every cut row a key no larger. |
| `Ranking.WindowBetweenCuts` | main.py:194 | In a descending sequence, a window ranks below everything before it and above everything after it. |
| `Records.DayIndexOrdersDates` | main.py:194 | The sort key of a date orders calendar dates exactly as Python's date comparison does. |
| `OrderedDict.Put` | main.py:224 | `d[k] = v` keeps every key listed exactly once. |
| `OrderedDict.PutTwice` | main.py:231-236 | Assigning a key twice is the same as assigning it once with the second value. |
| `OrderedDict.PutKeepsFirstSeenOrder` | main.py:224 | Assigning each key of a stream in turn keeps the keys in the order of their first appearance in the stream. |
| `OrderedDict.SumOfPut` | main.py:224 | `d[k] = v` changes the sum over the entries by `v` less the key's previous value. |
| `Auth.FindUser` | main.py:110-111 | The lookup returns nothing exactly when no user has the name. Otherwise it returns the first user with that name. |
| `Auth.FindUniqueUser` | main.py:26 | In a table with unique names, the lookup returns the one user with the name. |
| `Auth.FindAfterAppend` | main.py:164-166 | After a user with a new name is added, the lookup finds that user under its name and is unchanged for every other name. |
| `Auth.AuthenticateUser` | main.py:113-117 | A user is returned if and only if the name is known and the password verifies against the stored hash. The user returned is the stored one. |
| `Auth.UnknownUserRejected` | main.py:114-116 | An unknown name never authenticates. |
| `Auth.RegisteredUserAuthenticates` | main.py:164 | With a sound password context, a newly registered user authenticates with the registered password. Registration changes no other name's outcome. |
| `Auth.Lifetime` | main.py:106 | A lifetime that is missing or zero (a falsy `timedelta`) becomes fifteen minutes. Any other lifetime is kept. |
| `Auth.CreateAccessToken` | main.py:104-108 | The token is signed, keeps every claim of `data`, and sets `exp` to `now` plus the lifetime. |
| `Auth.Decode` | main.py:126 | A token decodes if and only if its signature checks out, its `exp` (if any) is an instant not before `now`, and its `sub` (if any) is a string. Decoding returns the claims. |
| `Auth.GetCurrentUser` | main.py:119-136 | The request is accepted if and only if the token decodes, carries `sub`, and `sub` names a stored user. That user is returned; every refusal is "Could not validate credentials". |
| `Auth.LoginForAccessToken` | main.py:139-154 | Login succeeds if and only if the credentials authenticate, and then issues a token with `sub` set to the user's name and expiry `now + 30 min`. Otherwise it answers "Invalid credentials". |
| `Auth.LoginToken` | main.py:150-153 | The login token decodes at its issue time, has `sub` set to the user's name, and has `exp` set to thirty minutes after issue. |
| `Auth.LoginTokenAcceptedUntilExpiry` | main.py:150-153 | A login token is accepted, and names its user, at every instant up to thirty minutes after issue, while that user is stored. |
| `Auth.LoginTokenExpires` | main.py:131-132 | After thirty minutes a login token is refused. |
| `Auth.LoginTokenOfUnknownUserRefused` | main.py:133-135 | A token naming a user who is not stored is refused. |
| `Auth.LoginRoundTrip` | main.py:139-154 | With unique names and a sound context, a user's registered password authenticates that user. The login token then authenticates the same user until it expires. |
| `Store.Owned` | main.py:194 | `filter_by(user=caller)` keeps each of the caller's rows exactly as often as the table holds it, and no other row. It is the summary query with neither date bound. |
| `Store.OwnedIgnoresOthers` | main.py:194 | A row of another user does not change the caller's rows. |
| `Store.ListTransactions` | main.py:194 | The listing has exactly as many rows as the window that `OFFSET skip LIMIT limit` cuts from the caller's rows. |
| `Store.DefaultListing` | main.py:189-194 | A request without `skip` and `limit` (0 and 100) lists the caller's first hundred rows in date order, or all of them when there are fewer. |
| `Store.ListingCorrect` | main.py:194 | The listing holds only the caller's rows, with dates non-increasing. It has at most `limit` rows when a limit is set, and holds each of the caller's rows exactly once when nothing is skipped or cut. In general it is exactly the rows from position `PageStart` up to `PageEnd` of the caller's rows in date order, so it has `PageEnd - PageStart` rows. No listed row is dated after a skipped row or before a cut row. |
| `Store.ListingWindow` | main.py:194 | The window of the date order that a page holds lies, on the calendar, between the skipped rows and the cut rows. |
| `Store.ListedAll` | main.py:187 | The response lists the rows in the same order, each with its own name, amount, type, category, date and description. |
| `Store.OtherUsersRowInvisible` | main.py:180-194 | A row created by another user changes neither the caller's listing nor the caller's summary rows. |
| `Store.Database.constructor` | main.py:42 | The tables of a fresh `sql.db` start empty. |
| `Store.Database.CreateUserRoute` | main.py:156-168 | A taken name is refused with "Username already registered" and leaves the tables unchanged. Otherwise exactly one user is appended, with the next id and the stored password `hash(password)`. Names stay unique. |
| `Store.Database.CreateTransactionRoute` | main.py:174-185 | An unauthenticated request is refused and changes nothing. Otherwise exactly one row is appended: the request's fields, the next id, and the caller as owner. No other row changes. |
| `Store.Database.ReadTransactions` | main.py:187-194 | An authenticated caller receives the listing of their own rows, reduced to the fields of `TransactionCreate`; anyone else is refused. |
| `Store.Database.SummaryRoute` | main.py:196-203 | An authenticated caller receives `SummaryOf` their own rows in the range, with the properties above; anyone else is refused. |

## Left out

- The Streamlit front ends (index.py, index_demo.py) and database.py are not part of this model. They are UI, HTTP calls and session plumbing.
- bcrypt is not modelled as cryptography. `hash` and `verify` are parameters, and the salt stands for bcrypt's randomness. The only property assumed is `Sound`, and it is a hypothesis of the lemmas that need it, not an axiom.
- Store.Database.CreateUserRoute: it states that the stored password is `hash(password, salt)`. That this differs from the plaintext is a property of bcrypt, which the model does not have.
- JWT signing is not modelled as cryptography. `SECRET_KEY` and HS256 become the `signed` flag of a token.
- Auth.Decode: it checks only `exp` and `sub`, the two claims these tokens carry. The type check on `sub` and the zero leeway on `exp` follow python-jose's documented behaviour, whose code is not part of this model.
- The clock `datetime.utcnow()` is the parameter `now`, in whole seconds. python-jose truncates `exp` to whole seconds too.
- Amounts are integers, not floats, so the model says nothing about float rounding in the sums.
- The month bucket is the month number 1..12 instead of the name from `strftime("%B")`. Each month has a different name, so the grouping is the same, and years still merge as in main.py.
- SQL does not fix the order of rows with equal dates or equal amounts, so the model claims nothing about ties. `ORDER BY` is modelled as an insertion sort, and only its order and its permutation are claimed.
- Summary.Query: the summary query has no `ORDER BY`, so SQL fixes no order for its rows. The model takes them in table (rowid) order, the order SQLite's scan of the table yields. The first-seen orders of the category breakdown and the monthly trends rest on this assumption. The totals do not (`TotalPermutation`).
- The request defaults are the constants `DefaultTopCount` (5), `DefaultSkip` (0) and `DefaultLimit` (100). A request that omits a parameter is a call with that constant. `DefaultListing` states what the default listing holds, and `DefaultTopTransactions` what the default top list holds.
- Store.Database.constructor: it models `create_all` on a fresh `sql.db`. On an existing file, `create_all` keeps the stored rows, and the model does not capture that. A database in any state that satisfies `Valid` is covered by the route methods.
- Negative `LIMIT` and `OFFSET` follow SQLite: a negative limit means no limit, and a negative offset skips nothing.
- Ids are SQLite rowids. With no deletions (the API has none), each new id is one more than the number of rows.
- Sessions, `commit`, `refresh` and concurrent requests are not modelled. Each route is one atomic step on the `Database` object.
- HTTP status codes and headers are not modelled. A refusal is a `Failure` value.
- Pydantic validation of request bodies is not modelled. A date is any year with month 1..12 and day 1..31, and days are not checked against the month's length.
- The `/hello` route and the `print` in `transactions_summary` are not modelled. The route only echoes the caller's name, and the `print` is console output.
